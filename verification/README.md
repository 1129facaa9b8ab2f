# GP atlas core in Dafny

A model of the core of a Gaussian-process object-modelling library. It
covers four parts:

- **Atlas.** The atlas of charts (`Chart`, `AtlasBase`) that an exploration
  planner grows over an implicit surface, and the gradient walk `project`
  that pulls a point onto the surface `f = 0`.
- **Engine bookkeeping.** The bookkeeping of the derivative-augmented
  Gaussian-process engine:
  - the dirty flags of the covariance and of alpha;
  - the capacity of the Cholesky factor `L`;
  - the shapes of `alpha` and `k_star`;
  - the index layout of the `4n x 4n` kernel built by `compute` and of the
    `4 x 4n` block built by `update_k_star`.
- **Optimiser.** The RProp hyper-parameter optimiser `Optimisation::find`.
- **Kernel.** The thin-plate covariance function `ThinPlate`.

Modules:

- **Outcomes**: `Option`, `Result` and the error kinds:
  - `GPRegressionException`, modelled as `RegressionError`;
  - `std::invalid_argument`, modelled as `InvalidArgument`;
  - an Eigen block access past the end of a matrix, modelled as
    `OutOfBounds`;
  - an Eigen operation whose sizes do not agree (a product of mismatched
    operands, or a resize that a fixed dimension forbids), modelled as
    `ShapeMismatch`.

  Each Eigen failure is an assertion failure in a debug build and
  undefined behaviour otherwise, never a success.
- **Geometry**: 3-vectors over `real`.
- **Charts**: `struct Chart`. The tangent-basis routine is a parameter
  `basis`.
- **Atlas**: the storage of `AtlasBase`: the charts, the adjacency map and
  the two shared pointers.
- **Projection**: `AtlasBase::project`. The regressor's value at a point is a
  parameter `f`.
- **CovThinPlate**: `ThinPlate`, as written and as documented. The distance
  is a parameter `dist`.
- **Layout**: which cell of `L` and of `k_star` receives which symbolic kernel
  term. The augmented index `n + 3i + d` is a bijection onto `[n, 4n)`.
- **GaussianProcess**: the state machine of flags and sizes behind `f`, `var`,
  `add_patterns`, `compute`, `update_alpha` and `update_k_star`.
  - A call that throws after changing state returns an `After(state, result)`
    pair.
  - `Sound` is the invariant the caches are meant to keep: whenever
    `compute` would be skipped, `L` fits the `4n` block and holds the factor
    of the current samples.
- **Incremental**: the rows of `L` that the incremental branch of
  `add_patterns` rewrites, set against the `4n` layout.
- **Optimisation**: `find`.
  - The log-likelihood `lik` and its gradient `gradient` are functions of the
    log-hyper-parameters.
  - `Nth(k)` is the k-th RProp iterate.
  - `Find` returns the parameters it evaluated (`tried`), the ones it sets
    (`chosen`) and the final step sizes.

Two places where the documentation and the code disagree:

- **ThinPlate kernel.** The comment at `include/gp/CovThinPlate.h:19`
  gives the kernel as `2d^3 - 3 l d^2 + l^3`. The code adds `l`
  instead of `l^3`. The model follows the code (`CovThinPlate.Get`). The
  documented form is `GetIntended`, and the difference is listed under
  Findings.
- **Output of `project`.** The comment on `project` says the output is left
  untouched when the walk does not succeed. In the code it is written on
  every exit that does not throw, including the iteration limit. The model
  follows the code.

## Model

| member | source | states |
|---|---|---|
| Charts.NewChart | include/atlas/atlas.hpp:23-28 | the constructor stores centre, id, gradient, radius and variance as given, derives normal and tangents from the gradient, and starts with no samples |
| Charts.SetGradient | include/atlas/atlas.hpp:44-48 | the new gradient is stored and the frame is re-derived from it; id, centre, radius, variance and samples are kept |
| Charts.SetRadius | include/atlas/atlas.hpp:50-53 | only the radius changes |
| Charts.ResetSamples | include/atlas/atlas.hpp:85-88 | the sample cache becomes empty and nothing else changes |
| Charts.FramePreserved | include/atlas/atlas.hpp:44-53 | a frame that matches the current gradient still matches after any of the three mutators |
| Charts.SetGradientIdempotent | include/atlas/atlas.hpp:44-48 | setting the current gradient is a no-op, and of two gradient updates only the last is visible |
| Atlas.NewAtlas | include/atlas/atlas.hpp:111-112 | both pointers as given, no charts, and the empty atlas is well formed |
| Atlas.CountNodes | include/atlas/atlas.hpp:122-125 | the count is the number of stored charts, and is 0 exactly when none is stored |
| Atlas.GetNode | include/atlas/atlas.hpp:129-135 | succeeds exactly for ids below the node count, returning the stored chart; otherwise throws "Out of Range node id" |
| Atlas.GetConnections | include/atlas/atlas.hpp:164-176 | succeeds exactly for ids below the node count; returns the recorded edge list, or an empty list for a chart without one; otherwise throws "Out of Range node id" |
| Atlas.Clear | include/atlas/atlas.hpp:140-145 | no charts and both pointers null afterwards, while the adjacency map is kept |
| Atlas.SetGPModel | include/atlas/atlas.hpp:149-152 | only the model pointer changes |
| Atlas.SetGPRegressor | include/atlas/atlas.hpp:156-159 | only the regressor pointer changes |
| Atlas.IsSolution | include/atlas/atlas.hpp:186-189 | the chart overload answers what the id overload answers for the chart's id |
| Atlas.IsSolutionOnlyById | include/atlas/atlas.hpp:186-190 | the chart overload answers what the id overload answers for its id, so charts with equal ids get equal answers |
| Atlas.AppendNode | include/atlas/atlas.hpp:192-196 | storing a chart adds one node, whose lookup under the old count returns it, and leaves every earlier lookup, the edges and the pointers unchanged |
| Atlas.AppendKeepsWellFormed | include/atlas/atlas.hpp:192-196 | storing a chart whose id is the old count keeps ids dense and edges inside the store, and the new chart has no connections |
| Atlas.LookupsAgree | include/atlas/atlas.hpp:164-176 | in a well-formed atlas the chart found under an id carries that id, and every connection it has can itself be looked up |
| Atlas.ClearLeavesStaleEdges | include/atlas/atlas.hpp:140-145 | after clear every recorded edge dangles and every connection lookup throws |
| Atlas.StaleEdgesResurface | include/atlas/atlas.hpp:140-145 | once charts are stored again after clear, an id's pre-clear edge list comes back as its connections |
| Projection.Project | include/atlas/atlas.hpp:226-277 | throws exactly on a null regressor and then evaluates nothing; otherwise takes at most max_iter steps and 2 evaluations per step; returns the point unchanged when it already meets f_tol; characterises each of the three exits by the iterate returned, the tolerance met and the number of evaluations; every completed iteration met neither tolerance |
| CovThinPlate.NewThinPlate | include/gp/CovThinPlate.h:28-31 | the length as given, its cube cached, and the covariance marked changed |
| CovThinPlate.DefaultThinPlate | include/gp/CovThinPlate.h:33-37 | the default constructor is the length-1 constructor |
| CovThinPlate.Get | include/gp/CovThinPlate.h:20-26 | get is the documented kernel at the points' distance, with its constant term l^3 replaced by l, so at distance 0 it is the length itself |
| CovThinPlate.GetThroughDistance | include/gp/CovThinPlate.h:20-26 | get depends on the two points only through their distance |
| CovThinPlate.GetSelf | include/gp/CovThinPlate.h:20-26 | at distance zero get returns the length itself |
| CovThinPlate.GetSymmetric | include/gp/CovThinPlate.h:20-26 | get is symmetric whenever the distance is |
| CovThinPlate.IntendedKernelShape | include/gp/CovThinPlate.h:19 | the documented kernel factorises as (l - d)^2 (2d + l), is nonnegative for nonnegative l and d, and vanishes at d = l |
| CovThinPlate.GetIntendedNonNegative | include/gp/CovThinPlate.h:19 | with the cached cube the documented kernel is nonnegative for every constructed kernel |
| CovThinPlate.AsWrittenConstantTerm | include/gp/CovThinPlate.h:25 | with length 2 the code's self-covariance is 2 where the documented one is 8, and at distance 1 the code's kernel is negative |
| CovThinPlate.FormsAgreeAtDefault | include/gp/CovThinPlate.h:25 | the code's and the documented kernel agree exactly when l = l^3, which includes the default length 1 |
| Layout.ChannelRoundTrip | include/gp/GaussianProcess.h:556-566 | every index of [0, 4n) decodes to a valid value or derivative channel that encodes back to it |
| Layout.IndexRoundTrip | include/gp/GaussianProcess.h:556-566 | every valid channel encodes into [0, 4n) and decodes back to itself |
| Layout.DerivIndexBijection | include/gp/GaussianProcess.h:560 | n + 3i + d maps {i < n, d < 3} into [n, 4n) injectively and onto |
| Layout.ComputeCoversLowerTriangle | include/gp/GaussianProcess.h:548-568 | every cell compute writes lies in the lower triangle of the 4n x 4n block, and every lower-triangle cell is written with its term |
| Layout.ComputeLayoutEntriesMatch | include/gp/GaussianProcess.h:548-568 | with the column decoded as sample j / 3, every cell gets the term its row and column channels call for and reads only existing samples, and no cell receives two different terms |
| Layout.ComputeAsWrittenReadsPastEnd | include/gp/GaussianProcess.h:563-564 | as written, one sample suffices for a second-derivative write that reads sample 1 |
| Layout.ComputeAsWrittenAlwaysReadsPastEnd | include/gp/GaussianProcess.h:563-564 | as written, for every n >= 1 the last cell (4n - 1, 4n - 1) is filled from sample 3n - 1, which does not exist, where it should hold the second derivative of sample n - 1 |
| Layout.KStarRowZeroExact | include/gp/GaussianProcess.h:467-475 | row 0 writes columns 0 .. 4n-1 once each, in order, with value terms then first derivatives |
| Layout.KStarDerivRowExact | include/gp/GaussianProcess.h:481-492 | with column n + 3j + d read as sample j, axis d, each row 1..3 writes its 4n columns once each with the right term |
| Layout.KStarLayoutExact | include/gp/GaussianProcess.h:462-503 | with the same correction the whole block is 4 x 4n, every write lands in it with the right term, and every row covers its columns exactly once |
| Layout.KStarAsWrittenOverwrites | include/gp/GaussianProcess.h:486-490 | as written, row 1 has 10n writes for 4n cells; with one sample, column 1 is written three times by the four-argument getDiff call on the missing sample 1, and none of the three is the second derivative of sample 0 that the cell needs |
| GaussianProcess.DefaultDesc | include/gp/GaussianProcess.h:197-207 | the defaults (L size 1500, no noise, no optimisation, no atlas) form a valid descriptor |
| GaussianProcess.Create | include/gp/GaussianProcess.h:594-609 | no samples, L sized initialLSize, initialLSize stored, the covariance flag as the new kernel sets it, alpha empty and stale, k_star an empty column vector, no factor yet; sound when the kernel starts dirty |
| GaussianProcess.Compute | include/gp/GaussianProcess.h:532-583 | a no-op while the covariance is clean. Otherwise it clears the flag and grows L to exactly 4n + initialLSize when 4n exceeds its rows, keeping it otherwise. It fails exactly when y does not have 4n entries (the product at line 570); then L holds no factor, alpha's flag is untouched and the engine is unsound. On success L holds the factor of the current samples laid out as the corrected line 564 lays them out, and alpha is marked stale. Nothing else changes, and Sound is preserved on success |
| GaussianProcess.UpdateAlpha | include/gp/GaussianProcess.h:506-529 | a no-op while alpha is current; otherwise alpha is sized 4n and the flag cleared; it then throws the size-mismatch error exactly when y does not have 4n entries, and fails out of bounds when the 4n block is larger than L |
| GaussianProcess.UpdateKStar | include/gp/GaussianProcess.h:457-503 | k_star, held as a matrix, becomes 4 x 4n and nothing else changes |
| GaussianProcess.ResizeColumnVector | include/gp/GaussianProcess.h:464 | resizing a column vector succeeds exactly when one column is asked for, and then gives it the requested number of rows |
| GaussianProcess.UpdateKStarAsWritten | include/gp/GaussianProcess.h:457-464 | as written, update_k_star fails Eigen's size assertion for every sample count, since 4n is never 1 |
| GaussianProcess.PredictAsWritten | include/gp/GaussianProcess.h:432-464 | as written, with k_star declared a column vector, f never returns a prediction: where the matrix version fails it fails the same way, and where the matrix version succeeds, resizing k_star to 4 x 4n fails Eigen's size assertion |
| GaussianProcess.Predict | include/gp/GaussianProcess.h:238-252 | an empty set throws "No training data available" untouched. Otherwise it fails exactly when y does not have 4n entries if the covariance is dirty (compute's failure, returned as is), or, if the covariance is clean, when alpha is stale and either y does not have 4n entries or the block is larger than L. Success leaves nothing stale and everything sized for n; Sound is preserved unless compute fails |
| GaussianProcess.Variance | include/gp/GaussianProcess.h:256-269 | an empty set gives 0 untouched; otherwise the state change and the failure are those of f, and the value is prior minus the squared solve |
| GaussianProcess.AddPatterns | include/gp/GaussianProcess.h:340-374 | n and y grow by the batch, while initialLSize, alpha's size and k_star's shape are kept. An empty set gets a fresh factor, with L grown as compute grows it, and fails as compute fails exactly when y does not have 4n entries. Otherwise the call succeeds, the covariance flag is kept, L grows to exactly nnew + initialLSize when nnew exceeds its rows, and L holds no valid factor once a sample was added. Alpha is stale after every success |
| Incremental.IncrementalOverwritesDerivativeRows | include/gp/GaussianProcess.h:360-370 | row n of the old 4n factor is the derivative row of sample 0 along axis 0, and the incremental update rewrites it with a value term; in the new layout it writes only value rows and no derivative row, so L afterwards is no current factor |
| GaussianProcess.AddPatternsFixed | include/gp/GaussianProcess.h:348-351 | rebuilding the factor on every batch succeeds exactly when y has 4n entries, and then leaves the engine sound, with L fitting the block and holding the current factor |
| GaussianProcess.FixedEngineStaysSound | include/gp/GaussianProcess.h:238-252 | from a sound engine whose targets match, under any sequence of corrected calls whose batches bring four targets per sample, the engine stays sound with matching targets, and on a non-empty set every f succeeds with a factor that fits in L and is current |
| GaussianProcess.AddPatternsLeavesStaleFactor | include/gp/GaussianProcess.h:348-373 | as written, adding a second sample to a one-sample engine leaves the covariance clean, so f skips compute and succeeds although L is not the factor of the two samples |
| GaussianProcess.AddPatternsOutgrowsL | include/gp/GaussianProcess.h:354-358 | as written, adding 500 samples to a one-sample engine leaves L at 1500 rows for a 2004 block, and f then fails on the out-of-bounds solve |
| GaussianProcess.PredictStable | include/gp/GaussianProcess.h:238-252 | after a successful f, calling f again changes no flag or size |
| GaussianProcess.CachesIdempotent | include/gp/GaussianProcess.h:532-535 | compute and update_alpha are idempotent |
| Optimisation.DefaultDesc | include/gp/GaussianProcess.h:66-75 | the defaults keep the step size within [deltaMin, deltaMax] |
| Optimisation.Sign | include/gp/GaussianProcess.h:139-143 | sign is 1, -1 or 0, sign(x) * x = abs(x), and it is 0 exactly at 0 |
| Optimisation.Adapt | include/gp/GaussianProcess.h:101-106 | on agreement the step becomes step * etaPlus or deltaMax, whichever is smaller; on disagreement step * etaMinus or deltaMin, whichever is larger; with no information it is kept |
| Optimisation.StepCoord | include/gp/GaussianProcess.h:99-109 | the step size follows Adapt, the remembered gradient is the new one or, after a sign change, 0, and the parameter moves by minus the sign of the remembered gradient times the new step size |
| Optimisation.IterateSteps | include/gp/GaussianProcess.h:97-110 | one iteration steps every parameter independently with the negated gradient taken at the current parameters |
| Optimisation.AdaptInRange | include/gp/GaussianProcess.h:101-106 | within [deltaMin, deltaMax] the rule keeps the step size in range, never shrinks it on agreement and never grows it on disagreement |
| Optimisation.StepKeepsDeltaInRange | include/gp/GaussianProcess.h:100-109 | one parameter update keeps its step size within [deltaMin, deltaMax] |
| Optimisation.StepCases | include/gp/GaussianProcess.h:99-110 | a sign change leaves the parameter and zeroes its remembered gradient; otherwise the parameter moves against the gradient by the new step size. Agreement multiplies the step by etaPlus unless capped at deltaMax, and does not shrink an in-range step; disagreement multiplies it by etaMinus unless floored at deltaMin, and does not grow an in-range step; no information keeps it |
| Optimisation.AfterSignChange | include/gp/GaussianProcess.h:104-110 | the update after a sign change keeps the step size |
| Optimisation.IterateKeepsDeltas | include/gp/GaussianProcess.h:97-110 | one iteration keeps every step size within range |
| Optimisation.RunKeepsDeltas | include/gp/GaussianProcess.h:97-121 | any number of iterations keeps every step size within range |
| Optimisation.FirstBestExtend | include/gp/GaussianProcess.h:117-120 | the strict comparison keeps the first parameters with the highest likelihood when one more is evaluated |
| Optimisation.TraceExtend | include/gp/GaussianProcess.h:110-113 | an iterate that does not meet the stopping test extends the record of evaluated iterates |
| Optimisation.FindIteration | include/gp/GaussianProcess.h:98-120 | one pass steps every parameter, stops exactly when the gradient norm falls below epsStop, and otherwise evaluates and keeps the best so far |
| Optimisation.FindOutcome | include/gp/GaussianProcess.h:111-122 | at loop exit the chosen parameters are the first best evaluated (the start if none), and an early exit means the stopping test held |
| Optimisation.Find | include/gp/GaussianProcess.h:87-124 | at most maxIter evaluations, the k-th being the k-th RProp iterate; an early stop happens exactly on a small gradient; the parameters set at the end are the first with the highest likelihood, or the start when none was evaluated; step sizes stay in range |

## Left out

- Linear algebra is not modelled: kernel values, the Cholesky factorisation, the triangular solves, `InvKppY` and the `f`/`var` values. Only flags, sizes and which cell gets which term are modelled, and real arithmetic stands in for doubles. A failed factorisation is not checked by the code and is not modelled either.
- `logLikelihood` and `logLikelihoodGradient` are parameters of `Optimisation.Find` and are not modelled themselves.
- The batch `evaluate` overloads, `set`, `getName`, `getNormals` and the member `computeTangentBasis` are left out. The first `evaluate` only zero-fills its outputs, and the second computes normals from `Kqpdiff`, which is never filled.
- The SampleSet, `BaseCovFunc` and the other kernels are not part of this model. `SampleSet::add` is represented by how many entries it appends to `y` (the `yAdded` argument), and `Vec3::distance` by the `dist` parameter.
- The noise argument (`i == j`) of the kernel calls in `compute` is not modelled, because the overloads taking it are not part of this model.
- `getNextState`, the id overload of `isSolution`, `createNode` and `connect` are pure virtual. `AppendNode` models only the storage a derived `createNode` performs, and the id overload is a parameter.
- Console output and `clock()` timing in `project`, `find`, `compute` and `add_patterns` are not modelled.
- Optimisation.Find: the start-up `printf` of `params(0)` and `params(1)` needs at least two parameters. The model does not require this.
- Optimisation.Find: `Optimisation::Desc::isValid` always returns true. The step-size bounds are stated under `ValidDesc`, a condition of the model rather than of the code.
- GaussianProcess.UpdateKStar: the declared `VectorXd` cannot hold a `4 x 4n` block (see Findings). The model holds `k_star` as the intended matrix, and `Predict`, `Variance` and the lemmas built on them use that version. Only the shape is recorded, not the values.
- GaussianProcess.Compute: `FactorCurrent` means L holds the factor of the kernel laid out as `Layout.ComputeWrites`, with line 564 corrected. As written, line 564 reads samples past the end for every n >= 1 (`Layout.ComputeAsWrittenAlwaysReadsPastEnd`). Those reads are undefined behaviour on the sample set and are not modelled as a failure of compute.
- GaussianProcess.FixedEngineStaysSound: promised only while y holds four targets per sample and every batch brings four per sample. Under any other count compute's product fails and leaves the engine unsound (see GaussianProcess.Compute), and the corrected add_patterns does not repair that.
- GaussianProcess.Variance: the value is `prior - vv`, with `prior` and `vv` as parameters. The conversion of that scalar to the declared `Matrix4d` return type is not modelled.
- GaussianProcess.DefaultDesc: `covTypeDesc` and the optimisation descriptor pointer are not part of this descriptor model.
- Unsigned wrap-around of `size_t` loop counters is not modelled: every count is a `nat`.
- GaussianProcess.Create: `create` leaves `sampleset` null; the line that would set it is commented out. The model's `n == 0` stands for the empty sample set that the left-out `set()` installs later.
- GaussianProcess.AddPatterns: the `assert` that inputs and targets have the same length cannot fail in the model, because a batch is given by one `count`.
- Projection.Project: the default arguments (`f_tol` 1e-2, `improve_tol` 1e-6, `max_iter` 5000, `step_mul` 1.0) are not modelled; every argument is explicit.
- Projection.Project: the regressor's `evaluate` and the `at(0)` on its result are taken to succeed, so `f` is a total function. An exception from them is not modelled.

## Findings

| source | as written | input that shows it | evidently intended | confidence | as-written member | corrected member |
|---|---|---|---|---|---|---|
| include/gp/GaussianProcess.h:564 | the second-derivative cell (n + 3i + d, n + j) is filled from sample `j` with axis `j % 3` | every n >= 1: cell (4n - 1, 4n - 1) reads sample 3n - 1, which does not exist; with n = 1 cell (2, 2) already reads sample 1 | read sample `j / 3` with axis `j % 3`, the channel of column n + j | not executed | Layout.ComputeAsWrittenAlwaysReadsPastEnd | Layout.ComputeLayoutEntriesMatch |
| include/gp/GaussianProcess.h:486-488 | rows 1..3 loop `j` over [n, 4n) and write cell (i, j) three times, once per axis, with the four-argument `getDiff` on sample `j` | n = 1: row 1 writes column 1 three times from sample 1 | column n + 3j + d holds the second derivative at sample j along axes i - 1 and d | not executed | Layout.KStarAsWrittenOverwrites | Layout.KStarLayoutExact |
| include/gp/GaussianProcess.h:360-370 | a non-empty sample set updates L as an n x n value factor, overwriting derivative rows, and leaves the covariance flag clean | 1 sample, then 1 more: f skips compute and succeeds with an L that is no factor of the two samples | rebuild the augmented 4n factor, as for an empty set | not executed | GaussianProcess.AddPatternsLeavesStaleFactor | GaussianProcess.FixedEngineStaysSound |
| include/gp/GaussianProcess.h:356-357 | L grows only when n, not 4n, exceeds its rows | 1 sample, then 500 more: L stays 1500 x 1500 for a 2004 block, and update_alpha's solve reads past L | grow to 4n + initialLSize when 4n exceeds the rows, as compute does | not executed | GaussianProcess.AddPatternsOutgrowsL | GaussianProcess.FixedEngineStaysSound |
| include/gp/GaussianProcess.h:464 | `k_star` is declared a column vector (line 432) and resized to 4 x 4n | any non-empty sample set: resize(4, 4n) asks a column vector for 4n columns and fails Eigen's size assertion, so f never returns | declare `k_star` as a matrix, as the 4 x 4n layout and `k_star->row(i)` at line 249 need | not executed | GaussianProcess.PredictAsWritten | GaussianProcess.Predict |
| include/gp/CovThinPlate.h:25 | the constant term of the kernel is `length_` | length 2: k(x, x) = 2 and k at distance 1 is -2 | the documented `length_^3`, which is cached in `length_3` and gives a nonnegative kernel | not executed | CovThinPlate.AsWrittenConstantTerm | CovThinPlate.GetIntendedNonNegative |
