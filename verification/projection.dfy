/** AtlasBase::project: walk a point toward the zero level set of the GP
    along a fixed, caller-supplied direction. */
module Projection {
  import opened Outcomes
  import opened Geometry
  import opened Atlas

  const EmptyRegressorPointer := "Empty regressor pointer"

  /** Which of the three independent criteria ended a run. */
  datatype Exit = FunctionTolerance | ImprovementTolerance | MaxIterations

  /** One descent step; `f` stands for the regressor's value at a point. */
  function Step(p: Vec3, normal: Vec3, stepMul: real, f: Vec3 -> real): (q: Vec3)
  {
    Sub(p, Scale(stepMul * f(p), normal))
  }

  /** The k-th iterate from `input`, always along the same `normal`. */
  function Walk(input: Vec3, normal: Vec3, stepMul: real, f: Vec3 -> real, k: nat): (q: Vec3)
  {
    if k == 0 then input else Step(Walk(input, normal, stepMul, f, k - 1), normal, stepMul, f)
  }

  /** Iteration k met neither tolerance, so the loop went on past it. */
  predicate Continues(input: Vec3, normal: Vec3, stepMul: real, f: Vec3 -> real,
                      fTol: real, improveTol: real, k: nat)
  {
    var p := Walk(input, normal, stepMul, f, k);
    Abs(f(p)) >= fTol && Abs(f(Step(p, normal, stepMul, f)) - f(p)) >= improveTol
  }

  /** `out` is the projected point (the source's out-parameter, which is
      written on every exit that does not throw); `iter` is the source's
      iteration counter at exit and `evals` counts regressor evaluations. */
  method Project(a: AtlasBase, input: Vec3, normal: Vec3, fTol: real, improveTol: real,
                 maxIter: nat, stepMul: real, f: Vec3 -> real)
    returns (out: Result<Vec3>, exit: Exit, iter: nat, evals: nat)
    // a null regressor throws before anything is evaluated; nothing else throws
    ensures out.Err? <==> a.gpReg.None?
    ensures out.Err? ==> out.error == RegressionError(EmptyRegressorPointer) && evals == 0
    // the iteration budget bounds the work
    ensures out.Ok? ==> iter <= maxIter && evals <= 2 * maxIter
    ensures out.Ok? && maxIter == 0 ==> out.value == input && evals == 0
    // a point already within tolerance is returned unchanged
    ensures out.Ok? && maxIter > 0 && Abs(f(input)) < fTol ==> out.value == input
    // the three exits
    ensures out.Ok? && exit == FunctionTolerance ==>
              iter < maxIter && out.value == Walk(input, normal, stepMul, f, iter)
              && Abs(f(out.value)) < fTol && evals == 2 * iter + 1
    ensures out.Ok? && exit == ImprovementTolerance ==>
              iter < maxIter && out.value == Walk(input, normal, stepMul, f, iter + 1)
              && Abs(f(Walk(input, normal, stepMul, f, iter))) >= fTol
              && Abs(f(out.value) - f(Walk(input, normal, stepMul, f, iter))) < improveTol
              && evals == 2 * iter + 2
    ensures out.Ok? && exit == MaxIterations ==>
              iter == maxIter && out.value == Walk(input, normal, stepMul, f, maxIter)
              && evals == 2 * maxIter
    // every completed iteration met neither tolerance
    ensures out.Ok? ==> forall k :: 0 <= k < iter ==> Continues(input, normal, stepMul, f, fTol, improveTol, k)
  {
    exit := MaxIterations;
    iter := 0;
    evals := 0;
    if a.gpReg.None? {
      out := Err(RegressionError(EmptyRegressorPointer));
      return;
    }
    var current := input;
    while iter < maxIter
      invariant iter <= maxIter
      invariant current == Walk(input, normal, stepMul, f, iter)
      invariant evals == 2 * iter
      invariant 0 < iter ==> Abs(f(input)) >= fTol
      invariant forall k :: 0 <= k < iter ==> Continues(input, normal, stepMul, f, fTol, improveTol, k)
    {
      var currentF := f(current);
      evals := evals + 1;
      if Abs(currentF) < fTol {
        out, exit := Ok(current), FunctionTolerance;
        return;
      }
      current := Step(current, normal, stepMul, f);
      var outF := f(current);
      evals := evals + 1;
      if Abs(outF - currentF) < improveTol {
        out, exit := Ok(current), ImprovementTolerance;
        return;
      }
      assert Continues(input, normal, stepMul, f, fTol, improveTol, iter);
      assert Abs(f(input)) >= fTol by {
        if 0 < iter {
          assert Continues(input, normal, stepMul, f, fTol, improveTol, 0);
        }
      }
      iter := iter + 1;
    }
    out := Ok(current);
  }
}
