/** The thin-plate covariance function (class ThinPlate, CovThinPlate.h). */
module CovThinPlate {
  import opened Geometry

  /** `length3` is the cached cube of `length`; `logHyperChanged` is the
      covariance's dirty flag inherited from BaseCovFunc. */
  datatype ThinPlate = ThinPlate(length: real, length3: real, logHyperChanged: bool)

  /** A kernel as its constructors leave it: the cube cached and the
      covariance marked dirty. */
  predicate Constructed(k: ThinPlate)
  {
    k.length3 == k.length * k.length * k.length && k.logHyperChanged
  }

  function NewThinPlate(length: real): (k: ThinPlate)
    ensures k.length == length
    ensures Constructed(k)
  {
    ThinPlate(length, length * length * length, true)
  }

  /** The default constructor is the length-1 constructor. */
  function DefaultThinPlate(): (k: ThinPlate)
    ensures k == NewThinPlate(1.0)
    ensures k.length == 1.0 && k.length3 == 1.0
  {
    ThinPlate(1.0, 1.0, true)
  }

  /** The closed form as the code evaluates it, in the distance d:
      cubic and quadratic terms, and `length` itself as constant term. */
  function KernelAt(length: real, d: real): (v: real)
  {
    2.0 * d * d * d - 3.0 * length * d * d + length
  }

  /** get(x1, x2); `dist` is Vec3::distance, which is not part of this model. */
  function Get(k: ThinPlate, x1: Vec3, x2: Vec3, dist: (Vec3, Vec3) -> real): (v: real)
    ensures v == IntendedKernelAt(k.length, dist(x1, x2)) - k.length * k.length * k.length + k.length
    ensures dist(x1, x2) == 0.0 ==> v == k.length
  {
    KernelAt(k.length, dist(x1, x2))
  }

  /** get depends on its points only through their distance. */
  lemma GetThroughDistance(k: ThinPlate, x1: Vec3, x2: Vec3, y1: Vec3, y2: Vec3, dist: (Vec3, Vec3) -> real)
    requires dist(x1, x2) == dist(y1, y2)
    ensures Get(k, x1, x2, dist) == Get(k, y1, y2, dist)
  {
  }

  /** At distance zero the kernel is `length` (not its cube). */
  lemma GetSelf(k: ThinPlate, x: Vec3, dist: (Vec3, Vec3) -> real)
    requires dist(x, x) == 0.0
    ensures Get(k, x, x, dist) == k.length
  {
  }

  /** A symmetric distance gives a symmetric kernel. */
  lemma GetSymmetric(k: ThinPlate, x1: Vec3, x2: Vec3, dist: (Vec3, Vec3) -> real)
    requires dist(x1, x2) == dist(x2, x1)
    ensures Get(k, x1, x2, dist) == Get(k, x2, x1, dist)
  {
  }

  /** The documented kernel, 2d^3 - 3 l d^2 + l^3. */
  function IntendedKernelAt(length: real, d: real): (v: real)
  {
    2.0 * d * d * d - 3.0 * length * d * d + length * length * length
  }

  /** get as documented: the constant term is the cached cube. */
  function GetIntended(k: ThinPlate, x1: Vec3, x2: Vec3, dist: (Vec3, Vec3) -> real): (v: real)
  {
    2.0 * dist(x1, x2) * dist(x1, x2) * dist(x1, x2) - 3.0 * k.length * dist(x1, x2) * dist(x1, x2) + k.length3
  }

  /** The documented kernel factorises as (l - d)^2 (2d + l), so it is
      nonnegative for every distance and falls to zero at d = l. */
  lemma IntendedKernelShape(length: real, d: real)
    requires 0.0 <= length && 0.0 <= d
    ensures IntendedKernelAt(length, d) == (length - d) * (length - d) * (2.0 * d + length)
    ensures IntendedKernelAt(length, d) >= 0.0
    ensures IntendedKernelAt(length, length) == 0.0
  {
    var e := length - d;
    calc {
      e * e * (2.0 * d + length);
      (length * length - 2.0 * length * d + d * d) * (2.0 * d + length);
      2.0 * d * d * d - 3.0 * length * d * d + length * length * length;
    }
    assert e * e >= 0.0;
    assert 2.0 * d + length >= 0.0;
    MulNonNegative(e * e, 2.0 * d + length);
  }

  lemma MulNonNegative(a: real, b: real)
    requires a >= 0.0 && b >= 0.0
    ensures a * b >= 0.0
  {
  }

  /** For every constructed kernel the cached-cube form is the documented
      kernel of the distance, hence nonnegative. */
  lemma GetIntendedNonNegative(k: ThinPlate, x1: Vec3, x2: Vec3, dist: (Vec3, Vec3) -> real)
    requires Constructed(k)
    requires 0.0 <= k.length && 0.0 <= dist(x1, x2)
    ensures GetIntended(k, x1, x2, dist) == IntendedKernelAt(k.length, dist(x1, x2))
    ensures GetIntended(k, x1, x2, dist) >= 0.0
  {
    IntendedKernelShape(k.length, dist(x1, x2));
  }

  /** The code's constant term differs from the documented one: with
      length 2 the self-covariance is 2 instead of 8, and at distance 1 the
      kernel is negative. */
  lemma AsWrittenConstantTerm()
    ensures KernelAt(2.0, 0.0) == 2.0 && IntendedKernelAt(2.0, 0.0) == 8.0
    ensures KernelAt(2.0, 1.0) < 0.0 && IntendedKernelAt(2.0, 1.0) >= 0.0
  {
  }

  /** The two forms agree exactly when length = length^3, which includes
      the default length 1. */
  lemma {:induction false} FormsAgreeAtDefault(d: real)
    ensures KernelAt(1.0, d) == IntendedKernelAt(1.0, d)
    ensures forall l: real :: KernelAt(l, d) == IntendedKernelAt(l, d) <==> l == l * l * l
  {
  }
}
