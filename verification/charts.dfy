/** A chart: a local disc on the estimated surface (struct Chart in atlas.hpp). */
module Charts {
  import opened Geometry

  /** What the tangent-basis routine derives from a gradient: the outward
      normal and two tangent vectors. The routine itself (an SVD) is a
      parameter of every operation that needs it. */
  datatype Frame = Frame(normal: Vec3, tanOne: Vec3, tanTwo: Vec3)

  /** `samples` is the n x 3 cache of disc samples, one row per point. */
  datatype Chart = Chart(
    id: nat,
    center: Vec3,
    gradient: Vec3,
    normal: Vec3,
    tanOne: Vec3,
    tanTwo: Vec3,
    radius: real,
    variance: real,
    samples: seq<Vec3>)

  /** The chart's frame is the one derived from its CURRENT gradient. */
  predicate FrameOf(ch: Chart, basis: Vec3 -> Frame)
  {
    basis(ch.gradient) == Frame(ch.normal, ch.tanOne, ch.tanTwo)
  }

  /** The only constructor: stores the given fields, derives the frame from
      the gradient, and starts with an empty sample cache. */
  function NewChart(center: Vec3, id: nat, g: Vec3, r: real, v: real, basis: Vec3 -> Frame): (ch: Chart)
    ensures ch.id == id && ch.center == center && ch.gradient == g
    ensures ch.radius == r && ch.variance == v
    ensures FrameOf(ch, basis)
    ensures ch.samples == []
  {
    var f := basis(g);
    Chart(id, center, g, f.normal, f.tanOne, f.tanTwo, r, v, [])
  }

  /** Replaces the gradient and recomputes the frame from it; identity,
      centre, radius, variance and samples are kept. */
  function SetGradient(ch: Chart, g: Vec3, basis: Vec3 -> Frame): (r: Chart)
    ensures r.gradient == g
    ensures FrameOf(r, basis)
    ensures r.id == ch.id && r.center == ch.center
    ensures r.radius == ch.radius && r.variance == ch.variance
    ensures r.samples == ch.samples
  {
    var f := basis(g);
    ch.(gradient := g, normal := f.normal, tanOne := f.tanOne, tanTwo := f.tanTwo)
  }

  /** Changes only the radius. */
  function SetRadius(ch: Chart, radius: real): (r: Chart)
    ensures r.radius == radius
    ensures r.(radius := ch.radius) == ch
  {
    ch.(radius := radius)
  }

  /** Empties the sample cache and nothing else. */
  function ResetSamples(ch: Chart): (r: Chart)
    ensures r.samples == []
    ensures r.(samples := ch.samples) == ch
  {
    ch.(samples := [])
  }

  /** A frame derived from the current gradient survives every mutator:
      radius and sample changes do not touch it, and a gradient change
      recomputes it. */
  lemma FramePreserved(ch: Chart, g: Vec3, radius: real, basis: Vec3 -> Frame)
    requires FrameOf(ch, basis)
    ensures FrameOf(SetRadius(ch, radius), basis)
    ensures FrameOf(ResetSamples(ch), basis)
    ensures FrameOf(SetGradient(ch, g, basis), basis)
  {
  }

  /** Setting the gradient a chart already has changes nothing, and only
      the last of two gradient updates is visible. */
  lemma SetGradientIdempotent(ch: Chart, g1: Vec3, g2: Vec3, basis: Vec3 -> Frame)
    requires FrameOf(ch, basis)
    ensures SetGradient(ch, ch.gradient, basis) == ch
    ensures SetGradient(SetGradient(ch, g1, basis), g2, basis) == SetGradient(ch, g2, basis)
  {
  }
}
