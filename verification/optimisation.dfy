/** The RProp hyper-parameter optimiser (class Optimisation,
    GaussianProcess.h). The log-likelihood and its gradient are
    parameters: `gradient(p)` is logLikelihoodGradient() and `lik(p)` is
    logLikelihood() once the kernel holds the log-hyper-parameters p. */
module Optimisation {
  import opened Outcomes
  import opened Geometry

  datatype Desc = Desc(
    delta0: real,
    deltaMin: real,
    deltaMax: real,
    etaMinus: real,
    etaPlus: real,
    epsStop: real,
    maxIter: nat)

  /** setToDefault(). */
  function DefaultDesc(): (d: Desc)
    ensures ValidDesc(d)
    ensures d.deltaMin == 0.000001 && d.deltaMax == 50.0 && d.maxIter == 100
  {
    Desc(0.1, 0.000001, 50.0, 0.5, 1.2, 0.0001, 100)
  }

  /** Step sizes that stay in [deltaMin, deltaMax]: the start lies in the
      range, shrinking never grows a step and growing never shrinks one. */
  predicate ValidDesc(d: Desc)
  {
    0.0 < d.deltaMin <= d.delta0 <= d.deltaMax && 0.0 <= d.etaMinus <= 1.0 <= d.etaPlus
  }

  /** sign(x). */
  function Sign(x: real): (r: real)
    ensures r == 1.0 || r == -1.0 || r == 0.0
    ensures r * x == Abs(x)
    ensures r == 0.0 <==> x == 0.0
  {
    if x > 0.0 then 1.0 else if x < 0.0 then -1.0 else 0.0
  }

  function Min(a: real, b: real): (m: real) { if b < a then b else a }
  function Max(a: real, b: real): (m: real) { if a < b then b else a }

  /** One parameter's state: its value, its step size and the gradient
      remembered from the previous iteration. */
  datatype Coord = Coord(param: real, delta: real, gradOld: real)

  /** The per-parameter rule with p = gradOld * grad: agreement grows the
      step (capped at deltaMax), disagreement shrinks it (floored at
      deltaMin) and zeroes the gradient, no information keeps it; the
      parameter then moves by -sign(grad) * delta. */
  function StepCoord(d: Desc, c: Coord, grad: real): (r: Coord)
    ensures r.delta == Adapt(d, c.delta, c.gradOld * grad)
    ensures r.gradOld == 0.0 || r.gradOld == grad
    ensures r.param == c.param - Sign(r.gradOld) * r.delta
  {
    var p := c.gradOld * grad;
    var delta := Adapt(d, c.delta, p);
    var g := if p < 0.0 then 0.0 else grad;
    Coord(c.param - Sign(g) * delta, delta, g)
  }

  /** The step-size rule, given the sign agreement p: agreement multiplies
      the step by etaPlus unless that passes deltaMax, disagreement
      multiplies it by etaMinus unless that falls below deltaMin, and no
      information keeps it. */
  function Adapt(d: Desc, delta: real, p: real): (r: real)
    ensures p > 0.0 ==> r <= delta * d.etaPlus && r <= d.deltaMax
    ensures p > 0.0 ==> r == delta * d.etaPlus || r == d.deltaMax
    ensures p < 0.0 ==> r >= delta * d.etaMinus && r >= d.deltaMin
    ensures p < 0.0 ==> r == delta * d.etaMinus || r == d.deltaMin
    ensures p == 0.0 ==> r == delta
  {
    if p > 0.0 then Min(delta * d.etaPlus, d.deltaMax)
    else if p < 0.0 then Max(delta * d.etaMinus, d.deltaMin)
    else delta
  }

  predicate DeltaInRange(d: Desc, c: Coord)
  {
    d.deltaMin <= c.delta <= d.deltaMax
  }

  /** A step keeps the step size in [deltaMin, deltaMax]. */
  lemma StepKeepsDeltaInRange(d: Desc, c: Coord, grad: real)
    requires ValidDesc(d) && DeltaInRange(d, c)
    ensures DeltaInRange(d, StepCoord(d, c, grad))
  {
    AdaptInRange(d, c.delta, c.gradOld * grad);
  }

  /** Within [deltaMin, deltaMax] the rule keeps the step in range, never
      shrinks it on agreement and never grows it on disagreement. */
  lemma AdaptInRange(d: Desc, delta: real, p: real)
    requires ValidDesc(d) && d.deltaMin <= delta <= d.deltaMax
    ensures d.deltaMin <= Adapt(d, delta, p) <= d.deltaMax
    ensures p > 0.0 ==> delta <= Adapt(d, delta, p)
    ensures p < 0.0 ==> Adapt(d, delta, p) <= delta
  {
    if p > 0.0 {
      MulMonotone(delta, 1.0, d.etaPlus);
    } else if p < 0.0 {
      MulMonotone(delta, d.etaMinus, 1.0);
    }
  }

  lemma MulMonotone(a: real, b: real, c: real)
    requires 0.0 <= a && b <= c
    ensures a * b <= a * c
  {
    assert a * c - a * b == a * (c - b);
  }

  /** How the three cases act on one parameter: a sign change leaves the
      parameter where it is and forgets the gradient, otherwise the
      parameter moves against the gradient by exactly the new step size. */
  lemma StepCases(d: Desc, c: Coord, grad: real)
    ensures var r := StepCoord(d, c, grad);
            && (c.gradOld * grad < 0.0 ==> r.param == c.param && r.gradOld == 0.0)
            && (c.gradOld * grad == 0.0 ==> r.delta == c.delta)
            && (c.gradOld * grad >= 0.0 ==> r.gradOld == grad && r.param == c.param - Sign(grad) * r.delta)
            && (c.gradOld * grad > 0.0 ==> r.delta <= d.deltaMax)
            && (c.gradOld * grad < 0.0 ==> r.delta >= d.deltaMin)
            && (c.gradOld * grad > 0.0 ==> r.delta == c.delta * d.etaPlus || r.delta == d.deltaMax)
            && (c.gradOld * grad < 0.0 ==> r.delta == c.delta * d.etaMinus || r.delta == d.deltaMin)
    ensures ValidDesc(d) && DeltaInRange(d, c) ==>
              var r := StepCoord(d, c, grad);
              && (c.gradOld * grad > 0.0 ==> c.delta <= r.delta)
              && (c.gradOld * grad < 0.0 ==> r.delta <= c.delta)
  {
    if ValidDesc(d) && DeltaInRange(d, c) {
      AdaptInRange(d, c.delta, c.gradOld * grad);
    }
  }

  /** After a sign change the next step only moves the parameter: the
      forgotten gradient gives p = 0, so the step size is kept. */
  lemma AfterSignChange(d: Desc, c: Coord, g1: real, g2: real)
    requires c.gradOld * g1 < 0.0
    ensures StepCoord(d, StepCoord(d, c, g1), g2).delta == StepCoord(d, c, g1).delta
  {
    assert StepCoord(d, c, g1).gradOld == 0.0;
  }

  function Params(s: seq<Coord>): (ps: seq<real>)
  {
    seq(|s|, j requires 0 <= j < |s| => s[j].param)
  }

  function Deltas(s: seq<Coord>): (ds: seq<real>)
  {
    seq(|s|, j requires 0 <= j < |s| => s[j].delta)
  }

  function Neg(v: seq<real>): (r: seq<real>)
  {
    seq(|v|, j requires 0 <= j < |v| => -v[j])
  }

  function SumSq(v: seq<real>): (r: real)
  {
    if v == [] then 0.0 else v[0] * v[0] + SumSq(v[1..])
  }

  /** gradOld.norm() < epsStop, with the square root squared away. */
  predicate Stops(d: Desc, s: seq<Coord>)
  {
    var g := seq(|s|, j requires 0 <= j < |s| => s[j].gradOld);
    0.0 < d.epsStop && SumSq(g) < d.epsStop * d.epsStop
  }

  /** The gradient returns one entry per parameter. */
  ghost predicate ShapeKept(gradient: seq<real> -> seq<real>, dim: nat)
  {
    forall p: seq<real> :: |p| == dim ==> |gradient(p)| == dim
  }

  function Init(d: Desc, start: seq<real>): (s: seq<Coord>)
    ensures |s| == |start| && Params(s) == start
  {
    seq(|start|, j requires 0 <= j < |start| => Coord(start[j], d.delta0, 0.0))
  }

  /** One iteration over all parameters, with the negated gradient taken at
      the current parameters. */
  function Iterate(d: Desc, gradient: seq<real> -> seq<real>, s: seq<Coord>): (r: seq<Coord>)
    requires ShapeKept(gradient, |s|)
    ensures |r| == |s|
  {
    var g := Neg(gradient(Params(s)));
    seq(|s|, j requires 0 <= j < |s| => StepCoord(d, s[j], g[j]))
  }

  /** One iteration steps every parameter on its own, with the negated
      gradient taken at the parameters before the iteration. */
  lemma IterateSteps(d: Desc, gradient: seq<real> -> seq<real>, s: seq<Coord>, j: nat)
    requires ShapeKept(gradient, |s|) && j < |s|
    ensures Iterate(d, gradient, s)[j] == StepCoord(d, s[j], -gradient(Params(s))[j])
  {
  }

  /** k iterations from s. */
  function Run(d: Desc, gradient: seq<real> -> seq<real>, s: seq<Coord>, k: nat): (r: seq<Coord>)
    requires ShapeKept(gradient, |s|)
    ensures |r| == |s|
    decreases k
  {
    if k == 0 then s else Iterate(d, gradient, Run(d, gradient, s, k - 1))
  }

  /** The state after the (k+1)-th iteration, whose parameters are the
      k-th ones evaluated. */
  function Nth(d: Desc, gradient: seq<real> -> seq<real>, start: seq<real>, k: nat): (r: seq<Coord>)
    requires ShapeKept(gradient, |start|)
    ensures |r| == |start|
  {
    Run(d, gradient, Init(d, start), k + 1)
  }

  predicate AllDeltasInRange(d: Desc, s: seq<Coord>)
  {
    forall j :: 0 <= j < |s| ==> DeltaInRange(d, s[j])
  }

  lemma IterateKeepsDeltas(d: Desc, gradient: seq<real> -> seq<real>, s: seq<Coord>)
    requires ValidDesc(d) && ShapeKept(gradient, |s|) && AllDeltasInRange(d, s)
    ensures AllDeltasInRange(d, Iterate(d, gradient, s))
  {
    var g := Neg(gradient(Params(s)));
    forall j | 0 <= j < |s|
      ensures DeltaInRange(d, StepCoord(d, s[j], g[j]))
    {
      StepKeepsDeltaInRange(d, s[j], g[j]);
    }
  }

  /** The step sizes stay in [deltaMin, deltaMax] through any number of
      iterations. */
  lemma {:induction false} RunKeepsDeltas(d: Desc, gradient: seq<real> -> seq<real>, s: seq<Coord>, k: nat)
    requires ValidDesc(d) && ShapeKept(gradient, |s|) && AllDeltasInRange(d, s)
    ensures AllDeltasInRange(d, Run(d, gradient, s, k))
    decreases k
  {
    if k > 0 {
      RunKeepsDeltas(d, gradient, s, k - 1);
      IterateKeepsDeltas(d, gradient, Run(d, gradient, s, k - 1));
    }
  }

  /** Lik(p) beats the best seen so far, which starts at log(0) = -inf. */
  predicate Improves(best: Option<real>, l: real)
  {
    best.None? || l > best.value
  }

  /** m is the first index of a highest likelihood in xs. */
  predicate FirstBest(xs: seq<seq<real>>, lik: seq<real> -> real, m: nat)
  {
    && m < |xs|
    && (forall k :: 0 <= k < m ==> lik(xs[k]) < lik(xs[m]))
    && (forall k :: 0 <= k < |xs| ==> lik(xs[k]) <= lik(xs[m]))
  }

  /** Appending p moves the first best to p exactly when p is strictly
      better. */
  lemma FirstBestExtend(xs: seq<seq<real>>, lik: seq<real> -> real, m: nat, p: seq<real>)
    requires FirstBest(xs, lik, m)
    ensures lik(p) > lik(xs[m]) ==> FirstBest(xs + [p], lik, |xs|)
    ensures lik(p) <= lik(xs[m]) ==> FirstBest(xs + [p], lik, m) && (xs + [p])[m] == xs[m]
  {
    var ys := xs + [p];
    assert forall k :: 0 <= k < |xs| ==> ys[k] == xs[k];
    assert ys[|xs|] == p;
  }

  /** The parameters evaluated so far are the first RProp iterates, none of
      which met the stopping test. */
  predicate Trace(d: Desc, gradient: seq<real> -> seq<real>, start: seq<real>, tried: seq<seq<real>>)
    requires ShapeKept(gradient, |start|)
  {
    forall k :: 0 <= k < |tried| ==>
      tried[k] == Params(Nth(d, gradient, start, k)) && !Stops(d, Nth(d, gradient, start, k))
  }

  lemma TraceExtend(d: Desc, gradient: seq<real> -> seq<real>, start: seq<real>, tried: seq<seq<real>>)
    requires ShapeKept(gradient, |start|)
    requires Trace(d, gradient, start, tried)
    requires !Stops(d, Nth(d, gradient, start, |tried|))
    ensures Trace(d, gradient, start, tried + [Params(Nth(d, gradient, start, |tried|))])
  {
    var ts := tried + [Params(Nth(d, gradient, start, |tried|))];
    assert forall k :: 0 <= k < |tried| ==> ts[k] == tried[k];
  }

  /** The best-so-far bookkeeping of find: none before the first
      evaluation, then the first parameters with the highest likelihood. */
  predicate Tracking(tried: seq<seq<real>>, lik: seq<real> -> real, start: seq<real>,
                     chosen: seq<real>, best: Option<real>, bestAt: nat)
  {
    && (best.None? <==> |tried| == 0)
    && (|tried| == 0 ==> chosen == start)
    && (|tried| > 0 ==> FirstBest(tried, lik, bestAt) && chosen == tried[bestAt] && best.value == lik(chosen))
  }

  /** The local state of find's loop: the RProp coordinates, the parameters
      evaluated so far, the best of them and whether the gradient test fired. */
  datatype Search = Search(s: seq<Coord>, tried: seq<seq<real>>, chosen: seq<real>,
                           best: Option<real>, bestAt: nat, stopped: bool)

  /** What holds between iterations of find's loop. */
  predicate SearchInv(d: Desc, gradient: seq<real> -> seq<real>, lik: seq<real> -> real,
                      start: seq<real>, st: Search)
    requires ShapeKept(gradient, |start|)
  {
    && st.s == Run(d, gradient, Init(d, start), if st.stopped then |st.tried| + 1 else |st.tried|)
    && (st.stopped ==> Stops(d, st.s))
    && Trace(d, gradient, start, st.tried)
    && Tracking(st.tried, lik, start, st.chosen, st.best, st.bestAt)
  }

  /** One pass of find's loop body: step every parameter, stop on a small
      gradient, otherwise evaluate the likelihood and keep the best. */
  method FindIteration(d: Desc, start: seq<real>, gradient: seq<real> -> seq<real>, lik: seq<real> -> real,
                       st: Search)
    returns (next: Search)
    requires ShapeKept(gradient, |start|)
    requires SearchInv(d, gradient, lik, start, st) && !st.stopped
    ensures SearchInv(d, gradient, lik, start, next)
    ensures next.stopped ==> next.tried == st.tried
    ensures !next.stopped ==> |next.tried| == |st.tried| + 1
  {
    var s' := Iterate(d, gradient, st.s);
    if Stops(d, s') {
      return st.(s := s', stopped := true);
    }
    var p := Params(s');
    var l := lik(p);
    if 0 < |st.tried| {
      FirstBestExtend(st.tried, lik, st.bestAt, p);
    }
    TraceExtend(d, gradient, start, st.tried);
    next := st.(s := s', tried := st.tried + [p]);
    if Improves(st.best, l) {
      next := next.(best := Some(l), chosen := p, bestAt := |st.tried|);
    }
  }

  /** What find reports once its loop has ended. */
  lemma FindOutcome(d: Desc, gradient: seq<real> -> seq<real>, lik: seq<real> -> real,
                    start: seq<real>, st: Search)
    requires ShapeKept(gradient, |start|)
    requires SearchInv(d, gradient, lik, start, st)
    requires st.stopped || |st.tried| == d.maxIter
    ensures !st.stopped ==> Run(d, gradient, Init(d, start), |st.tried|) == st.s
    ensures st.stopped ==> Stops(d, Nth(d, gradient, start, |st.tried|))
    ensures |st.tried| == 0 ==> st.chosen == start
    ensures |st.tried| > 0 ==> exists m: nat :: FirstBest(st.tried, lik, m) && st.chosen == st.tried[m]
    ensures |Deltas(st.s)| == |start|
    ensures ValidDesc(d) ==>
      forall j :: 0 <= j < |start| ==> d.deltaMin <= Deltas(st.s)[j] <= d.deltaMax
  {
    var steps := if st.stopped then |st.tried| + 1 else |st.tried|;
    if ValidDesc(d) {
      InitDeltasInRange(d, start);
      RunKeepsDeltas(d, gradient, Init(d, start), steps);
      DeltasBounded(d, st.s);
    }
    if 0 < |st.tried| {
      assert FirstBest(st.tried, lik, st.bestAt) && st.chosen == st.tried[st.bestAt];
    }
  }

  lemma InitDeltasInRange(d: Desc, start: seq<real>)
    requires ValidDesc(d)
    ensures AllDeltasInRange(d, Init(d, start))
  {
  }

  lemma DeltasBounded(d: Desc, s: seq<Coord>)
    requires AllDeltasInRange(d, s)
    ensures |Deltas(s)| == |s|
    ensures forall j :: 0 <= j < |s| ==> d.deltaMin <= Deltas(s)[j] <= d.deltaMax
  {
  }

  /** find(): `tried` lists, in order, the parameters whose likelihood was
      evaluated and `chosen` is what the kernel is finally set to;
      `deltas` are the step sizes at exit. */
  method Find(d: Desc, start: seq<real>, gradient: seq<real> -> seq<real>, lik: seq<real> -> real)
    returns (chosen: seq<real>, tried: seq<seq<real>>, deltas: seq<real>)
    requires ShapeKept(gradient, |start|)
    // at most maxIter iterations, each the k-th RProp iterate
    ensures |tried| <= d.maxIter
    ensures Trace(d, gradient, start, tried)
    // the loop ended early exactly when the gradient norm fell below epsStop
    ensures |tried| < d.maxIter ==> Stops(d, Nth(d, gradient, start, |tried|))
    // the result is the first parameters with the highest likelihood seen, else the start
    ensures |tried| == 0 ==> chosen == start
    ensures |tried| > 0 ==> exists m: nat :: FirstBest(tried, lik, m) && chosen == tried[m]
    // step sizes never leave [deltaMin, deltaMax]
    ensures |deltas| == |start|
    ensures ValidDesc(d) ==> forall j :: 0 <= j < |deltas| ==> d.deltaMin <= deltas[j] <= d.deltaMax
  {
    var st := Search(Init(d, start), [], start, None, 0, false);
    while !st.stopped && |st.tried| < d.maxIter
      invariant SearchInv(d, gradient, lik, start, st) && |st.tried| <= d.maxIter
      decreases d.maxIter - |st.tried|, !st.stopped
    {
      st := FindIteration(d, start, gradient, lik, st);
    }
    FindOutcome(d, gradient, lik, start, st);
    chosen, tried, deltas := st.chosen, st.tried, Deltas(st.s);
  }
}
