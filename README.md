# Fundamental matrix and panorama: a Dafny model

This project models the computational core of two small computer-vision
exercises.

- **Fundamental matrix** (`Vision/Fundamental_Initial/Fundamental.cpp`). Point
  correspondences between two views are matched. A RANSAC loop fits a
  fundamental matrix F to them: it draws a random sample of eight matches,
  fits F with the normalized eight-point algorithm, and counts the matches
  whose first point lies within 1.5 pixels of the epipolar line F·p2. The
  loop keeps the model with the most inliers and shrinks its iteration
  budget as support grows. At the end it filters the caller's matches down to
  the winning inliers. A click in either image then selects the epipolar
  line to draw in the other image.
- **Panorama** (`Vision/Panorama_Initial/Panorama.cpp`). From at least four
  clicked pairs, the homography H is the solution of the 2n × 8 linear system
  in h0..h7 (with h8 = 1). The panorama canvas is the smallest rectangle that
  holds image 2 and the four corners of image 1 mapped by H.

Modules:

- `Linear`: 3-vectors, 3 × 3 matrices, products.
- `Matches`: the correspondence record.
- `Sampler`: randseed.
- `EightPoint`: the eight-point computeF without its SVDs.
- `Inliers`: computeInliers.
- `Ransac`: nbIter, the RANSAC computeF, and the caller's match vector.
- `Epipolar`: the line selection of displayEpipolar.
- `Homography`: getHomography and its sanity check.
- `Bounds`: growTo and the canvas computation of panorama.

Floating-point values are modelled as exact reals. The following foreign
computations are passed in as function parameters:

- `svd` and `rank2`: the two singular value decompositions;
- `linSolve`: the linear solver;
- `estimate`: the logarithm/power formula of nbIter;
- `draws`: the positions the random engine returns.

## Model

| member | source | states |
|---|---|---|
| `Sampler.Erase` | Vision/Fundamental_Initial/Fundamental.cpp:75 | erasing position i keeps the elements before i and shifts the ones after it down by one |
| `Sampler.SampleDistinct` | Vision/Fundamental_Initial/Fundamental.cpp:67-75 | drawing without replacement from distinct values yields distinct values, all from the pool |
| `Sampler.SampleThroughPool` | Vision/Fundamental_Initial/Fundamental.cpp:67-75 | the k-th match drawn is the original match at the k-th position drawn from the list of positions |
| `Sampler.RandSeed` | Vision/Fundamental_Initial/Fundamental.cpp:50-78 | a count outside 1..\|matches\| is refused (None) and any other count succeeds; the sample has exactly `num` matches, each the original match at a position, and the positions are pairwise distinct (without replacement) |
| `Sampler.RandSeedAsWritten` | Vision/Fundamental_Initial/Fundamental.cpp:69-77 | with the return inside the loop, a valid request yields a single match, the one at the first drawn position |
| `Sampler.EarlyReturnLosesSample` | Vision/Fundamental_Initial/Fundamental.cpp:76 | asked for 8 matches, the code as written returns 1 where the corrected draw returns 8 |
| `EightPoint.Normalize` | Vision/Fundamental_Initial/Fundamental.cpp:94-108 | both points of the conditioned match are the originals multiplied by T = diag(0.001, 0.001, 1) |
| `EightPoint.RowTimesVector` | Vision/Fundamental_Initial/Fundamental.cpp:110-118 | a coefficient row times a 9-vector v is the epipolar form p1ᵀ·F·p2, where F is v reshaped |
| `EightPoint.ConditionRows` | Vision/Fundamental_Initial/Fundamental.cpp:150 | T·F scales row i of F by tᵢ |
| `EightPoint.ConditionColumns` | Vision/Fundamental_Initial/Fundamental.cpp:150 | G·T scales column j of G by tⱼ |
| `EightPoint.DenormalizeEntries` | Vision/Fundamental_Initial/Fundamental.cpp:150 | T is symmetric, and T·F·T scales entry (i, j) of F by tᵢ·tⱼ |
| `EightPoint.DenormalizeBilinear` | Vision/Fundamental_Initial/Fundamental.cpp:150 | the epipolar form of F on conditioned points equals the form of T·F·T on pixel points |
| `EightPoint.SystemSolvedIffEpipolar` | Vision/Fundamental_Initial/Fundamental.cpp:90-123 | v zeroes every row of the 9 × 9 system iff the denormalized reshaped v satisfies p1ᵀ·F·p2 = 0 on all eight sampled matches; the zeroed row 8 adds no constraint |
| `EightPoint.WriteRow9` | Vision/Fundamental_Initial/Fundamental.cpp:110-118 | row i of A receives the nine coefficients, and no other row changes |
| `EightPoint.FillSystem` | Vision/Fundamental_Initial/Fundamental.cpp:88-123 | the filled array is the system: rows 0..7 hold the coefficients of the conditioned matches 0..7, and row 8 is zero |
| `EightPoint.ReshapeToMatrix` | Vision/Fundamental_Initial/Fundamental.cpp:131-136 | entry (i, j) of the 3 × 3 result is v[3i + j] |
| `EightPoint.ComputeFundamental` | Vision/Fundamental_Initial/Fundamental.cpp:79-151 | the estimate is T·rank2(reshape(svd(A)))·T, where A is the system of the sample |
| `Inliers.InlierIsDistanceTest` | Vision/Fundamental_Initial/Fundamental.cpp:164-174 | when norm is the positive square root of l0² + l1², the squared test holds iff \|p1·l\| / norm < dist |
| `Inliers.DistanceTestSquared` | Vision/Fundamental_Initial/Fundamental.cpp:170-174 | for norm = sqrt(nsq) > 0, \|d\| / norm < dist iff dist > 0 and d² < dist²·nsq |
| `Inliers.DegenerateLineHasNoInliers` | Vision/Fundamental_Initial/Fundamental.cpp:168-174 | a line with l0 = l1 = 0, where the division yields no number, has no inliers |
| `Inliers.InliersBelow` | Vision/Fundamental_Initial/Fundamental.cpp:156-177 | every index collected among the first n matches is below n |
| `Inliers.InlierIndices` | Vision/Fundamental_Initial/Fundamental.cpp:154-179 | every collected index is a valid position in the matches |
| `Inliers.InliersBelowSpec` | Vision/Fundamental_Initial/Fundamental.cpp:156-177 | the collected indices increase strictly, and an index is among them iff its match passes the distance test |
| `Inliers.ComputeInliers` | Vision/Fundamental_Initial/Fundamental.cpp:154-179 | the result is exactly the increasing list of positions whose matches pass the test |
| `Ransac.NbIter` | Vision/Fundamental_Initial/Fundamental.cpp:182-189 | the next budget is the estimate for failure probability β = 0.01 clamped to the current budget: it exceeds neither and equals one of them |
| `Ransac.BudgetTraceStep` | Vision/Fundamental_Initial/Fundamental.cpp:202-211 | a trial run below the budget in force, which keeps or raises the best count and then sets the budget to nbIter of the old one exactly when it raised the count above 50 (keeping it otherwise), extends the trace of budgets and best counts |
| `Ransac.BestCountsStep` | Vision/Fundamental_Initial/Fundamental.cpp:206-208 | recording the larger of the previous best count and the new trial's inlier count keeps every recorded count equal to the best count after its trial |
| `Ransac.RoundStep` | Vision/Fundamental_Initial/Fundamental.cpp:202-211 | one round of the loop below the budget, with the update of the source (a strictly larger count replaces the best; above 50 the budget becomes nbIter), keeps the budget trace, the best counts and the best model |
| `Ransac.Trial` | Vision/Fundamental_Initial/Fundamental.cpp:203-205 | a trial fails iff there are fewer than 8 matches; otherwise it yields the model fitted to trial n's sample and exactly that model's inliers (`ModelsOf`, `InliersOf` at n) |
| `Ransac.IsBestStep` | Vision/Fundamental_Initial/Fundamental.cpp:206-208 | a strictly larger inlier count replaces the best model; a tie or a smaller count keeps the earlier one; either way the best so far stays the first trial with the most inliers |
| `Ransac.RunTrials` | Vision/Fundamental_Initial/Fundamental.cpp:197-214 | the loop fails iff there are fewer than 8 matches; otherwise it runs at least one trial, stops once the trials run reach the budget, and keeps the loop state (exact budget trace, best counts, first best model) |
| `Ransac.Search` | Vision/Fundamental_Initial/Fundamental.cpp:197-214 | the search fails iff there are fewer than 8 matches; otherwise (RansacRun) trial t ran only while t was below the budget in force before it, and the run stopped once the trials reached the final budget; the budget starts at 100000 and after trial t is nbIter of the old one exactly when trial t raised the best count above 50, and is unchanged otherwise; the best count after each trial is the larger of the count before and that trial's inlier count; the best model is that of the first trial reaching the final count, with at least one inlier, and None comes with no inliers |
| `Ransac.TracesAgree` | Vision/Fundamental_Initial/Fundamental.cpp:202-211 | two budget traces whose best counts follow the same trials agree on every budget and count up to the shorter one |
| `Ransac.RunBestDetermined` | Vision/Fundamental_Initial/Fundamental.cpp:206-208 | two best models of the same trials with equally many inliers are equal, with equal inlier lists and, when a model was kept, the same winning trial |
| `Ransac.RansacRunDetermined` | Vision/Fundamental_Initial/Fundamental.cpp:197-214 | the contract of the loop fixes the run: two runs on the same matches and externals run the same number of trials, with the same budgets and best counts, and return the same F, from the same winning trial, with the same inlier list |
| `Ransac.GatherSubMultiset` | Vision/Fundamental_Initial/Fundamental.cpp:215-219 | gathering at strictly increasing positions takes each match at most as often as it occurs |
| `Ransac.MatchVector.Clear` | Vision/Fundamental_Initial/Fundamental.cpp:216 | the vector is empty afterwards |
| `Ransac.MatchVector.PushBack` | Vision/Fundamental_Initial/Fundamental.cpp:218 | the match is appended at the end |
| `Ransac.Compact` | Vision/Fundamental_Initial/Fundamental.cpp:215-219 | the vector becomes the old matches at the given positions, in the order of the positions |
| `Ransac.ComputeF` | Vision/Fundamental_Initial/Fundamental.cpp:192-221 | with fewer than 8 matches the vector is unchanged; otherwise the run satisfies RansacRun on the old matches: its length is fixed by the budget trace, and the returned F is the model of the first trial with the most inliers; None comes back only when no trial found an inlier; the vector becomes exactly the returned model's inliers in their original order (empty with None), a sub-multiset of the old matches |
| `Epipolar.SelectMatrixPicks` | Vision/Fundamental_Initial/Fundamental.cpp:238 | the blend view·Fᵀ + (1 − view)·F is Fᵀ for view 1 and F for view 0 |
| `Epipolar.EpipolarLine` | Vision/Fundamental_Initial/Fundamental.cpp:234-238 | a click left of w selects image 1 and the line Fᵀ·(x, y, 1); a click at or right of w selects image 2 and the line F·(x − w, y, 1) |
| `Epipolar.LineIsEpipolarConstraint` | Vision/Fundamental_Initial/Fundamental.cpp:234-238 | a point lies on the selected line iff it and the clicked point satisfy p1ᵀ·F·p2 = 0, in both directions |
| `Homography.PairCount` | Vision/Panorama_Initial/Panorama.cpp:46 | the number of pairs is the length of the shorter click list |
| `Homography.Assemble` | Vision/Panorama_Initial/Panorama.cpp:77-80 | entry (r, c) of H is h[3r + c], except that the last entry is 1 |
| `Homography.Mapped` | Vision/Panorama_Initial/Panorama.cpp:88 | H·(x, y, 1) written out in h0..h7 |
| `Homography.RowValues` | Vision/Panorama_Initial/Panorama.cpp:55-73 | with (u, v, w) = H·(x, y, 1), rows 2i and 2i + 1 evaluate to u − x′·(w − 1) and v − y′·(w − 1) |
| `Homography.CrossZeroIff` | Vision/Panorama_Initial/Panorama.cpp:89-91 | (a0, a1, a2) × (x′, y′, 1) is zero iff a0 = x′·a2 and a1 = y′·a2 |
| `Homography.PairSolvedIffResidualZero` | Vision/Panorama_Initial/Panorama.cpp:83-91 | both equations of a pair hold iff the residual that the sanity check prints for that pair is zero |
| `Homography.SystemRowsOfPair` | Vision/Panorama_Initial/Panorama.cpp:54-74 | rows 2i and 2i + 1 of A and entries 2i and 2i + 1 of B come from pair i |
| `Homography.SystemSolvedIffResidualsZero` | Vision/Panorama_Initial/Panorama.cpp:51-92 | a vector solves the whole system iff the assembled H has zero residual on every pair |
| `Homography.SystemUsesFirstPairs` | Vision/Panorama_Initial/Panorama.cpp:46-74 | clicks beyond the first n pairs do not enter the system |
| `Homography.WriteRow` | Vision/Panorama_Initial/Panorama.cpp:55-62 | row r receives the eight coefficients, and every other row is unchanged |
| `Homography.WritePair` | Vision/Panorama_Initial/Panorama.cpp:55-73 | rows 2i and 2i + 1 and entries 2i and 2i + 1 get the equations of pair i, and nothing else changes |
| `Homography.WritePairs` | Vision/Panorama_Initial/Panorama.cpp:54-74 | for every pair i < n, rows 2i and 2i + 1 of A and entries 2i and 2i + 1 of B hold the equations of pair i |
| `Homography.SystemFromPairs` | Vision/Panorama_Initial/Panorama.cpp:51-74 | rows and right-hand sides that hold the equations of each of the first n pairs are exactly the system A, B |
| `Homography.FillHomographySystem` | Vision/Panorama_Initial/Panorama.cpp:51-74 | the filled A and B are the system of the first n pairs |
| `Homography.GetHomography` | Vision/Panorama_Initial/Panorama.cpp:44-94 | fewer than four pairs give the identity; otherwise H is assembled from linSolve applied to the system of the first n pairs |
| `Bounds.GrowTo` | Vision/Panorama_Initial/Panorama.cpp:97-102 | the rectangle grows to hold (x, y) and the old rectangle; it is unchanged when it already held the point, and it is the smallest rectangle holding both |
| `Bounds.MappedCorner` | Vision/Panorama_Initial/Panorama.cpp:110-123 | the mapped corner is dehomogenized: its third entry is 1 (through the helper lemma `DivSelf`, x / x = 1) |
| `Bounds.PanoramaBounds` | Vision/Panorama_Initial/Panorama.cpp:105-128 | the rectangle holds image 2 and all four mapped corners of image 1, lies inside every rectangle that does, and gives a canvas int(x1 − x0) × int(y1 − y0) at least as large as image 2 |

## Left out

- The GUI: windows, clicks (`getMouse`, `getClicks`), drawing, the line
  clipping of `line`, and the console output. Among the console output are
  the message of randseed (Fundamental.cpp:53), the "iterations needed"
  message of the RANSAC computeF (Fundamental.cpp:212), the message of
  getHomography (Panorama.cpp:48), and the residuals that the sanity check
  prints; the residuals are modelled as values (`Homography.Residual`).
- SIFT detection and matching, image loading and `main`: foreign libraries
  and I/O.
- The singular value decompositions, the rank-2 step (zeroing the smallest
  singular value and multiplying back) and `linSolve`: foreign numerical
  code. Each enters as a function parameter whose result is not
  constrained.
- Floating point: values are exact reals, so rounding, overflow, NaN and
  infinity are not modelled.
- `Ransac.NbIter` passes β = 0.01 (`BETA`, Fundamental.cpp:14) to the `estimate`
  input. That input stands for log(β) / log(1 − (inliers / matches)^sample),
  truncated to int: the logarithm and the power have no exact real
  counterpart. Only the clamp to the current budget is modelled.
- The random engine: `draws` is the sequence of positions the uniform
  distribution returns. Each position is assumed to lie in the distribution's
  range.
- The pixel resampling loop of panorama (Panorama.cpp:130-153) is not modelled.
  It reads pixels through `inverse(H)` (Panorama.cpp:134) and is image I/O
  over floating point; `inverse` is not modelled.
- `Bounds.PanoramaBounds` requires that H maps no corner of image 1 to a point
  at infinity. Where the third entry is zero, `v/=v[2]` (Panorama.cpp:111)
  makes it NaN (0 / 0) and the first two entries ±infinity, or NaN where they
  are zero as well. growTo ignores a NaN coordinate, since every comparison
  with NaN is false, while an infinite one reaches `int(...)` at
  Panorama.cpp:128. None of this is modelled.
- `Homography.GetHomography`: the products −x′·x of the clicked integer
  coordinates are formed as exact reals, so int overflow is not modelled.
- `Ransac.ComputeF`: with fewer than 8 matches, the source calls randseed,
  which fails, and then uses its result. The model instead stops with
  `InsufficientMatches` and leaves the matches untouched. `bestF`, which the
  source leaves uninitialised until the first improvement, is an `Option`.
- The source does not compile as written. The model follows the evident
  intent at each defect:
  - randseed's `return 0` for an empty vector (Fundamental.cpp:54) is modelled as None;
  - the loop counter `n` of the RANSAC loop (Fundamental.cpp:202) is undeclared and
    never incremented; it is modelled as starting at 0 and counting the trials;
  - `num=8` in calls (Fundamental.cpp:203, :210) is modelled as the constant 8;
  - two functions share the name computeF; they are `EightPoint.ComputeFundamental`
    and `Ransac.ComputeF` here;
  - missing semicolons and a stray comma in loop headers are ignored;
  - in displayEpipolar, `v` is taken as a 3-vector with v[2] = 1 and `w` as the width of
    image 1. The window shows image 1 on the left and image 2 to its right.

## Findings

| source | as written | input that shows it | evidently intended | confidence | as-written member | corrected member |
|---|---|---|---|---|---|---|
| Vision/Fundamental_Initial/Fundamental.cpp:76 | `return eight_point;` sits inside the sampling loop, so randseed returns after the first draw | any call with 8 matches and num = 8 returns one match (`Sampler.EarlyReturnLosesSample`) | return after the loop, with `num` matches drawn without replacement | high (not executed) | `Sampler.RandSeedAsWritten` | `Sampler.RandSeed` |
