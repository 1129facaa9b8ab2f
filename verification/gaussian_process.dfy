/** Bookkeeping of class GaussianProcess (GaussianProcess.h): the dirty
    flags, the capacity of the factor L, and the shapes of alpha and
    k_star. The linear algebra itself (kernel terms, Cholesky factor,
    triangular solves) is left out; see Layout for where compute writes. */
module GaussianProcess {
  import opened Outcomes

  /** The engine descriptor (GaussianProcess::Desc). */
  datatype Desc = Desc(initialLSize: nat, noise: real, optimise: bool, atlas: bool)

  function DefaultDesc(): (d: Desc)
    ensures DescIsValid(d)
    ensures d.initialLSize == 1500 && d.noise == 0.0 && !d.optimise && !d.atlas
  {
    Desc(1500, 0.0, false, false)
  }

  /** isValid(): a size_t is always finite, so only the noise is checked. */
  predicate DescIsValid(d: Desc)
  {
    d.noise >= 0.0
  }

  /** n is sampleset->rows() and ySize is sampleset->y().size();
      cfChanged is the covariance's log-hyper flag; L is lSize x lSize;
      factorFor is the sample count the last full compute() factorised. */
  datatype Gp = Gp(
    n: nat,
    ySize: nat,
    cfChanged: bool,
    alphaNeedsUpdate: bool,
    lSize: nat,
    alphaSize: nat,
    kStarRows: nat,
    kStarCols: nat,
    initialLSize: nat,
    factorFor: Option<nat>)

  /** A call that may throw after having changed the state. */
  datatype After<+T> = After(gp: Gp, result: Result<T>)

  const NoTrainingData := "No training data available"
  const SizeMismatch := "Target and alpha vector have a size dismatch"
  /** The failure of a solve whose 4n block does not fit in L. */
  const BlockPastL := "topLeftCorner(4n, 4n) exceeds L"
  /** The failure of compute's product of the inverted 4n block with y. */
  const ProductMismatch := "inverse of the 4n block times y: y does not have 4n entries"
  /** The failure of resizing the column vector k_star to 4 x 4n. */
  const KStarNotMatrix := "resize(4, 4n) of the column vector k_star"

  /** The 4n x 4n block compute factorises and update_alpha solves with
      fits in L. */
  predicate BlockFits(s: Gp)
  {
    4 * s.n <= s.lSize
  }

  /** L holds the factor of the augmented kernel of the current samples. */
  predicate FactorCurrent(s: Gp)
  {
    s.factorFor == Some(s.n)
  }

  /** The invariant the caches are meant to keep: whenever compute() would
      be skipped, L already fits and holds the current factor. */
  predicate Sound(s: Gp)
  {
    (!s.cfChanged ==> BlockFits(s) && FactorCurrent(s)) && AlphaSized(s)
  }

  /** A clean alpha has one entry per augmented channel. */
  predicate AlphaSized(s: Gp)
  {
    !s.alphaNeedsUpdate ==> s.alphaSize == 4 * s.n
  }

  /** create(): L is initialLSize square, alpha and k_star are empty, alpha
      is stale; `cfChanged` is the flag of the freshly built kernel (the
      thin-plate constructors set it). */
  function Create(d: Desc, cfChanged: bool): (s: Gp)
    ensures s.n == 0 && s.ySize == 0 && s.lSize == d.initialLSize && s.alphaNeedsUpdate
    ensures s.initialLSize == d.initialLSize && s.cfChanged == cfChanged
    ensures s.alphaSize == 0 && s.kStarRows == 0 && s.kStarCols == 1 && s.factorFor.None?
    ensures cfChanged ==> Sound(s)
  {
    Gp(0, 0, cfChanged, true, d.initialLSize, 0, 0, 1, d.initialLSize, None)
  }

  /** compute(): skipped while the covariance is clean. Otherwise it clears
      the flag, grows L to 4n + initialLSize when 4n exceeds it, writes the
      kernel into L and multiplies the inverse of its 4n x 4n block by y.
      That product needs y to have 4n entries; when it does not, the call
      fails with the flag already cleared and L holding an unfactorised
      kernel. Otherwise L is factorised and alpha marked stale. */
  function Compute(s: Gp): (r: After<()>)
    ensures !r.gp.cfChanged
    ensures !s.cfChanged ==> r == After(s, Ok(()))
    ensures s.cfChanged ==> (r.result.Err? <==> s.ySize != 4 * s.n)
    ensures r.result.Err? ==> r.result == Err(ShapeMismatch(ProductMismatch)) && !FactorCurrent(r.gp)
    ensures r.result.Err? ==> r.gp.alphaNeedsUpdate == s.alphaNeedsUpdate && !Sound(r.gp)
    ensures s.cfChanged && r.result.Ok? ==> BlockFits(r.gp) && FactorCurrent(r.gp) && r.gp.alphaNeedsUpdate
    ensures s.cfChanged && BlockFits(s) ==> r.gp.lSize == s.lSize
    ensures s.cfChanged && !BlockFits(s) ==> r.gp.lSize == 4 * s.n + s.initialLSize
    ensures s.cfChanged ==>
              r.gp == s.(cfChanged := false, lSize := r.gp.lSize, factorFor := r.gp.factorFor,
                         alphaNeedsUpdate := r.gp.alphaNeedsUpdate)
    ensures r.gp.n == s.n && r.gp.ySize == s.ySize && r.gp.alphaSize == s.alphaSize
    ensures Sound(s) && r.result.Ok? ==> Sound(r.gp)
  {
    if !s.cfChanged then After(s, Ok(()))
    else
      var lSize := if 4 * s.n > s.lSize then 4 * s.n + s.initialLSize else s.lSize;
      var t := s.(cfChanged := false, lSize := lSize, factorFor := None);
      if s.ySize != 4 * s.n then After(t, Err(ShapeMismatch(ProductMismatch)))
      else After(t.(factorFor := Some(s.n), alphaNeedsUpdate := true), Ok(()))
  }

  /** update_alpha(): skipped while alpha is current; otherwise clears the
      flag and sizes alpha to 4n BEFORE checking the targets, so a size
      mismatch throws with the flag already cleared. The two solves then
      take the top-left 4n x 4n block of L, which is out of bounds when L
      has fewer rows. */
  function UpdateAlpha(s: Gp): (r: After<()>)
    ensures !r.gp.alphaNeedsUpdate
    ensures !s.alphaNeedsUpdate ==> r == After(s, Ok(()))
    ensures s.alphaNeedsUpdate ==> r.gp.alphaSize == 4 * s.n
    ensures s.alphaNeedsUpdate ==> (r.result.Err? <==> s.ySize != 4 * s.n || !BlockFits(s))
    ensures s.alphaNeedsUpdate && s.ySize != 4 * s.n ==> r.result == Err(InvalidArgument(SizeMismatch))
    ensures s.alphaNeedsUpdate && s.ySize == 4 * s.n && !BlockFits(s) ==> r.result == Err(OutOfBounds(BlockPastL))
    ensures r.gp.(alphaNeedsUpdate := s.alphaNeedsUpdate, alphaSize := s.alphaSize) == s
  {
    if !s.alphaNeedsUpdate then After(s, Ok(()))
    else
      var t := s.(alphaNeedsUpdate := false, alphaSize := 4 * s.n);
      if s.ySize != 4 * s.n then After(t, Err(InvalidArgument(SizeMismatch)))
      else if 4 * s.n > s.lSize then After(t, Err(OutOfBounds(BlockPastL)))
      else After(t, Ok(()))
  }

  /** update_k_star(): k_star becomes the 4 x 4n block laid out by
      Layout.KStarLayout, held as a matrix. */
  function UpdateKStar(s: Gp): (r: Gp)
    ensures r.kStarRows == 4 && r.kStarCols == 4 * s.n
    ensures r.(kStarRows := s.kStarRows, kStarCols := s.kStarCols) == s
  {
    s.(kStarRows := 4, kStarCols := 4 * s.n)
  }

  /** Eigen's resize(rows, cols) of a column vector: the column count is
      fixed at one, and any other count fails the size assertion. */
  function ResizeColumnVector(rows: nat, cols: nat): (r: Result<nat>)
    ensures r.Ok? <==> cols == 1
    ensures r.Ok? ==> r.value == rows
  {
    if cols == 1 then Ok(rows) else Err(ShapeMismatch(KStarNotMatrix))
  }

  /** update_k_star() as written: k_star is declared a column vector, and
      resize(4, 4n) asks it for 4n columns. */
  function UpdateKStarAsWritten(s: Gp): (r: Result<Gp>)
    ensures r == Err(ShapeMismatch(KStarNotMatrix))
  {
    match ResizeColumnVector(4, 4 * s.n)
    case Err(e) => Err(e)
    case Ok(rows) => Ok(s.(kStarRows := rows))
  }

  /** The state a successful prediction leaves: nothing stale, alpha and
      k_star sized for the current samples. */
  predicate Ready(s: Gp)
  {
    !s.cfChanged && !s.alphaNeedsUpdate && s.alphaSize == 4 * s.n
    && s.kStarRows == 4 && s.kStarCols == 4 * s.n
  }

  /** f(x*): throws on an empty sample set before touching anything;
      otherwise compute (which may fail), update_alpha (which may throw),
      and update_k_star with k_star as the 4 x 4n matrix. The returned
      4-vector is k_star times alpha and is not modelled. */
  function Predict(s: Gp): (r: After<()>)
    ensures s.n == 0 ==> r == After(s, Err(InvalidArgument(NoTrainingData)))
    ensures r.result.Ok? ==> s.n > 0 && !r.gp.cfChanged && !r.gp.alphaNeedsUpdate
    ensures r.result.Ok? && AlphaSized(s) ==> Ready(r.gp)
    ensures s.n > 0 ==>
              (r.result.Err? <==> if s.cfChanged then s.ySize != 4 * s.n
                                  else s.alphaNeedsUpdate && (s.ySize != 4 * s.n || !BlockFits(s)))
    ensures s.n > 0 && s.cfChanged && s.ySize != 4 * s.n ==> r == Compute(s)
    ensures r.gp.n == s.n && r.gp.ySize == s.ySize
    ensures Sound(s) && (s.cfChanged ==> s.ySize == 4 * s.n) ==> Sound(r.gp)
  {
    if s.n == 0 then After(s, Err(InvalidArgument(NoTrainingData)))
    else
      var c := Compute(s);
      if c.result.Err? then c
      else
        var a := UpdateAlpha(c.gp);
        if a.result.Err? then a else After(UpdateKStar(a.gp), Ok(()))
  }

  /** f(x*) as written: the same path, but update_k_star resizes the column
      vector k_star, so no call ever returns a prediction. Where the
      corrected f throws, this one throws the same at the same point. */
  function PredictAsWritten(s: Gp): (r: After<()>)
    ensures r.result.Err?
    ensures Predict(s).result.Err? ==> r == Predict(s)
    ensures Predict(s).result.Ok? ==> r.result == Err(ShapeMismatch(KStarNotMatrix))
  {
    if s.n == 0 then After(s, Err(InvalidArgument(NoTrainingData)))
    else
      var c := Compute(s);
      if c.result.Err? then c
      else
        var a := UpdateAlpha(c.gp);
        if a.result.Err? then a
        else
          match UpdateKStarAsWritten(a.gp)
          case Err(e) => After(a.gp, Err(e))
          case Ok(t) => After(t, Ok(()))
  }

  /** var(x*): 0 on an empty sample set, without touching anything;
      otherwise the same path as f, returning prior - vv, where prior is
      cf->get(x*, x*) and vv the squared norm of the forward solve. */
  function Variance(s: Gp, prior: real, vv: real): (r: After<real>)
    ensures s.n == 0 ==> r == After(s, Ok(0.0))
    ensures s.n > 0 && r.result.Ok? ==> r.result.value == prior - vv
    ensures r.result.Ok? && AlphaSized(s) ==> AlphaSized(r.gp)
    ensures s.n > 0 ==> r.gp == Predict(s).gp && (r.result.Ok? <==> Predict(s).result.Ok?)
  {
    if s.n == 0 then After(s, Ok(0.0))
    else
      var p := Predict(s);
      if p.result.Err? then After(p.gp, Err(p.result.error)) else After(p.gp, Ok(prior - vv))
  }

  /** add_patterns(): `count` inputs with as many targets are appended (the
      source asserts the lengths agree) and SampleSet::add grows y by
      `yAdded`. On an empty set the kernel is marked dirty and compute runs,
      failing as compute does. Otherwise L only grows, to nnew +
      initialLSize, when nnew exceeds its rows, and the incremental update
      rewrites the rows [n, nnew) of L (see Incremental.IncrementalTerms),
      so L no longer holds the factor of any sample set once a sample was
      added. Alpha ends stale. */
  function AddPatterns(s: Gp, count: nat, yAdded: nat): (r: After<()>)
    ensures r.gp.n == s.n + count && r.gp.ySize == s.ySize + yAdded
    ensures r.gp.initialLSize == s.initialLSize && r.gp.alphaSize == s.alphaSize
    ensures r.gp.kStarRows == s.kStarRows && r.gp.kStarCols == s.kStarCols
    ensures r.result.Ok? ==> r.gp.alphaNeedsUpdate
    ensures s.n == 0 ==> !r.gp.cfChanged && (r.result.Err? <==> r.gp.ySize != 4 * r.gp.n)
    ensures s.n == 0 && r.result.Ok? ==> BlockFits(r.gp) && FactorCurrent(r.gp)
    ensures s.n == 0 && r.result.Err? ==> r.result == Err(ShapeMismatch(ProductMismatch)) && !Sound(r.gp)
    ensures s.n == 0 ==> r.gp.lSize == if 4 * r.gp.n > s.lSize then 4 * r.gp.n + s.initialLSize else s.lSize
    ensures s.n > 0 ==> r.result.Ok? && r.gp.cfChanged == s.cfChanged
    ensures s.n > 0 ==> r.gp.factorFor == if count == 0 then s.factorFor else None
    ensures s.n > 0 ==> r.gp.lSize == if r.gp.n > s.lSize then r.gp.n + s.initialLSize else s.lSize
  {
    var t := s.(n := s.n + count, ySize := s.ySize + yAdded);
    if s.n == 0 then
      var c := Compute(t.(cfChanged := true));
      if c.result.Err? then c else After(c.gp.(alphaNeedsUpdate := true), Ok(()))
    else
      var u := if t.n > t.lSize then t.(lSize := t.n + t.initialLSize) else t;
      var v := if count == 0 then u else u.(factorFor := None);
      After(v.(alphaNeedsUpdate := true), Ok(()))
  }

  /** add_patterns as the layout requires: the augmented kernel of the new
      sample set is rebuilt, as for an empty set. */
  function AddPatternsFixed(s: Gp, count: nat, yAdded: nat): (r: After<()>)
    ensures r.gp.n == s.n + count && r.gp.ySize == s.ySize + yAdded
    ensures r.result.Ok? <==> r.gp.ySize == 4 * r.gp.n
    ensures r.result.Ok? ==> Sound(r.gp) && !r.gp.cfChanged && BlockFits(r.gp) && FactorCurrent(r.gp)
    ensures r.result.Ok? ==> r.gp.alphaNeedsUpdate
  {
    var c := Compute(s.(n := s.n + count, ySize := s.ySize + yAdded, cfChanged := true));
    if c.result.Err? then c else After(c.gp.(alphaNeedsUpdate := true), Ok(()))
  }

  /** y holds one value and three derivative targets per sample. */
  predicate TargetsMatch(s: Gp)
  {
    s.ySize == 4 * s.n
  }

  /** A batch that brings four targets per sample. */
  predicate Balanced(op: Op)
  {
    op.Add? ==> op.yAdded == 4 * op.count
  }

  /** Every operation of the corrected engine keeps Sound while the targets
      match the samples, so on a non-empty sample set every prediction
      succeeds, with a factor that fits in L and belongs to the current
      samples. */
  lemma {:induction false} FixedEngineStaysSound(s: Gp, ops: seq<Op>)
    requires Sound(s) && TargetsMatch(s)
    requires forall i :: 0 <= i < |ops| ==> Balanced(ops[i])
    ensures Sound(RunFixed(s, ops)) && TargetsMatch(RunFixed(s, ops))
    ensures RunFixed(s, ops).n > 0 ==> Predict(RunFixed(s, ops)).result.Ok?
    ensures Predict(RunFixed(s, ops)).result.Ok? ==>
              BlockFits(Predict(RunFixed(s, ops)).gp) && FactorCurrent(Predict(RunFixed(s, ops)).gp)
    decreases |ops|
  {
    if ops != [] {
      var t := RunFixed(s, ops[..|ops| - 1]);
      FixedEngineStaysSound(s, ops[..|ops| - 1]);
      assert RunFixed(s, ops) == Apply(t, ops[|ops| - 1]);
    }
  }

  /** The calls a client makes on the engine. */
  datatype Op = Add(count: nat, yAdded: nat) | Mean | Var(prior: real, vv: real) | Recompute | Alpha

  function Apply(s: Gp, op: Op): (r: Gp)
  {
    match op
    case Add(c, y) => AddPatternsFixed(s, c, y).gp
    case Mean => Predict(s).gp
    case Var(p, v) => Variance(s, p, v).gp
    case Recompute => Compute(s).gp
    case Alpha => UpdateAlpha(s).gp
  }

  function RunFixed(s: Gp, ops: seq<Op>): (r: Gp)
    decreases |ops|
  {
    if ops == [] then s else Apply(RunFixed(s, ops[..|ops| - 1]), ops[|ops| - 1])
  }

  /** The engine after add_patterns put one sample, with its four targets,
      into a default engine: sound, with the factor of that sample. */
  function OneSample(): (s: Gp)
    ensures After(s, Ok(())) == AddPatterns(Create(DefaultDesc(), true), 1, 4)
    ensures Sound(s) && FactorCurrent(s) && !s.cfChanged
  {
    Gp(1, 4, false, true, 1500, 0, 0, 1, 1500, Some(1))
  }

  /** The code's add_patterns breaks Sound: adding a second sample leaves
      the covariance clean, so f skips compute and succeeds with an L that
      is not the factor of the two samples. */
  lemma AddPatternsLeavesStaleFactor()
    ensures var s2 := AddPatterns(OneSample(), 1, 4).gp;
            && !Sound(s2) && !s2.cfChanged && BlockFits(s2)
            && Predict(s2).result.Ok? && !FactorCurrent(Predict(s2).gp)
  {
  }

  /** Adding 500 samples instead leaves L at 1500 rows for a block of
      4 * 501 = 2004, and f's solve reads past the end of L. */
  lemma AddPatternsOutgrowsL()
    ensures var s3 := AddPatterns(OneSample(), 500, 2000).gp;
            && !Sound(s3) && !BlockFits(s3) && s3.lSize == 1500 && s3.n == 501
            && Predict(s3).result == Err(OutOfBounds(BlockPastL))
  {
  }

  /** A successful prediction leaves nothing to redo: predicting again
      changes no flag or size. */
  lemma PredictStable(s: Gp)
    requires Predict(s).result.Ok?
    ensures Predict(Predict(s).gp) == Predict(s)
  {
  }

  /** compute and update_alpha are idempotent. */
  lemma CachesIdempotent(s: Gp)
    ensures Compute(Compute(s).gp) == After(Compute(s).gp, Ok(()))
    ensures UpdateAlpha(UpdateAlpha(s).gp) == After(UpdateAlpha(s).gp, Ok(()))
  {
  }
}
