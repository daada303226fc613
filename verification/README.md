# maploc, verified

A model of `maploc`, the mapping crate of a small walking robot, and proofs about it.
Each module follows one or two source files.

| module | source | what it is about |
|---|---|---|
| `DistanceTransform`, `Lines`, `Grid` | `grid.rs` | the one-dimensional distance transform and the two passes that make the wall field, its cache, the line walk, the log-odds a ray inks |
| `Search`, `Planner` | `planner.rs` | the inflated mask, the snap, A*, the supercover test, simplification, a whole plan |
| `LinearSolver`, `NormalEquations`, `Optimizer` | `optimizer.rs` | Gaussian elimination, the damped and pinned normal equations, what a solve moves, disowning loop edges |
| `LinearAlgebra`, `Covariance` | `uncertainty.rs`, `scan_matcher.rs` | the covariance filter and the window information it takes in |
| `Resampling` | `mcl.rs` | systematic resampling |
| `Poses`, `PoseGraphs`, `Submaps`, `LoopCloser`, `Pipeline` | `pose_graph.rs`, `submap.rs`, `submap_manager.rs`, `loop_closer.rs`, `pipeline.rs` | planar poses, submaps, the graph, and the pipeline that wires them together |
| `Hypotheses`, `Mapping` | `mapper.rs` | the places a boot's search keeps; tracking, suspicion, being lost, resting, and what each may ink |
| `Simulation` | `mapper.rs`, `pipeline.rs` | the pipeline under the mapper behaves as the mapper's stand-in for it |
| `Bands`, `Accumulator` | `band.rs`, `accumulator.rs` | clamped evidence by height, and the vote over distinct frames |
| `SessionLog` | `record.rs`, `replay.rs` | the log's bytes, written and read |
| `Reals`, `Sorting` | | order, sign and rounding up over the reals; the library's stable sort |

## Conventions

- f32 and f64 are reals, i32 and usize integers; where the source's i32 or i8 saturates or clamps, so does the model. A coordinate that may not be finite is a `Coordinate`.
- A heading is its cosine and sine, so that poses compose exactly. Most angle thresholds are the cosine of that angle (0.35 rad in `Pipeline`, 0.15 rad in `Mapping`). Where the source computes with the angle itself (an edge's residual, a node's turn, the spread of witnesses), the angle of a heading, the heading of an angle or of a vector, and the square root are given (`Poses.Trig`).
- Square roots are avoided by comparing squares; the distance field is kept in square metres. Where the source needs a length (an odometry step, a beam), it is given with the value whose square it must be.
- What scans say (match results, verdicts, the places a search proposes) is given with every call, so each claim holds whatever they say.
- Classes stand for the source's structs that change in place. `Mapping.Mapper` groups the source's fields into four records and keeps a ghost account of the run (`Run`), against which its counters are proved. What a call must do is stated over the state at one moment and at another (`View`), step by step.

## What the code does that its words do not say

- `Slam::from_session` (`maploc/src/pipeline.rs:143-147`) counts the closures of a saved session by subtracting one edge fewer than the chain has whenever a submap was open: the count comes back one too high, and right exactly when no submap was open or none had frozen (`Pipeline.ResumedCountIsOneTooHigh`).
- Fusing no information does not give back the covariance but the covariance with its diagonal floored at 1e-8, so fusing can raise a variance. No window does exactly when the floored covariance cannot be inverted, so that nothing is fused, or no diagonal entry is below the floor (`Covariance.FuseNeverRaisesTheCovarianceIff`).
- The cap of `from_information` holds for every window exactly when the cap can be inverted (`Covariance.CapHoldsIff`); the unit information exceeds a zero cap (`Covariance.SmallCapCapsNothing`).
- A comb that starts at zero copies a first particle that has no weight (`Resampling.FirstParticleIsCopiedForNothing`). Particles without weight are never copied exactly when the comb starts above zero or the first one has weight (`Resampling.WeightlessAreLeftIff`).
- The recorder accepts frames of any size; the reader takes only 8 x 8 ones (`SessionLog.OtherFramesAreRefused`).
- The comment on `Hypothesis::seen` (`maploc/src/mapper.rs:901-905`) says the tracked pose stands still while the mapper is lost. `observe` carries it along by odometry in every mode (`maploc/src/mapper.rs:1225`), and the model does too: it stands still exactly when there is no reading before or no step since (`Mapping.StandsStillIff`).

## Model

| member | source | states |
|---|---|---|
| DistanceTransform.CheapestIsTheMinimum | maploc/src/grid.rs:522-588 | the reference: a value is the cheapest exactly when it is attained by a finite sample and below every other, or infinite with no finite sample |
| DistanceTransform.CrossingSplitsTheLine | maploc/src/grid.rs:584-588 | at their intersection two parabolas change places: left of it the older is below, right of it the newer |
| DistanceTransform.Dt1d | maploc/src/grid.rs:522-582 | every output is the minimum over finite samples of the squared offset plus the sample, infinite everywhere when none is finite; the envelope's boundaries stay strictly increasing and the pops terminate |
| Lines.Bresenham | maploc/src/grid.rs:594-617 | the walk ends after as many steps as the longer axis is long, and its k-th cell is the closed form's |
| Lines.StepLandsOnTheLine | maploc/src/grid.rs:603-615 | the error term alone moves the walk from one cell of the closed form to the next |
| Lines.LineStaysInTheRectangle | maploc/src/grid.rs:594-617 | the line stays in its ends' rectangle, starts at one end and reaches the other at the last step and not before |
| Lines.LineIsWithinHalfACell | maploc/src/grid.rs:594-617 | every cell is within half a cell of the true line |
| Lines.LineCellsAreDistinct | maploc/src/grid.rs:594-617 | no cell is visited twice |
| Grid.TwoPassIsNearestWall | maploc/src/grid.rs:318-353 | a transform along the rows and then the columns is, for every cell, the squared distance to the nearest wall |
| Grid.ExactFieldIsUnique | maploc/src/grid.rs:297-353 | the exact field of a map at a threshold is determined by the map: two fields that meet the definition are equal |
| Grid.OccupancyGrid.RecomputeDistanceField | maploc/src/grid.rs:297-353 | the field computed is the exact one, the constant of the longer side when there is no wall |
| Grid.OccupancyGrid.DistanceFieldShared | maploc/src/grid.rs:288-296 | whatever edits and queries at whatever thresholds came before, the answer is the exact field of the log-odds as they are |
| Grid.OccupancyGrid.constructor | maploc/src/grid.rs:77-90 | the grid covers the configured ranges, holds no evidence, and its invariant holds: log-odds within their limits, a clean cache exact |
| Grid.CellHoldsThePoint | maploc/src/grid.rs:118-125 | away from the clamp a coordinate is in cell n exactly when it lies n cells, and less than n + 1, past the edge of the grid |
| Grid.OccupancyGrid.Bump | maploc/src/grid.rs:172-183 | one clamped increment of one cell |
| Grid.OccupancyGrid.AddLogOddsAtWorld | maploc/src/grid.rs:184-193 | outside the grid nothing changes; inside exactly one cell, clamped |
| Grid.OccupancyGrid.AddLogOddsAt | maploc/src/grid.rs:194-206 | the same by cell |
| Grid.OccupancyGrid.IntegrateRay | maploc/src/grid.rs:207-238 | every in-bounds cell of the ray's line gets exactly one clamped increment, a hit at the far end and misses before it, nothing else changes, and the answer says whether any cell was written; a ray with an end that is not finite is skipped whole |
| Search.OctileIsConsistent | maploc/src/planner.rs:144-149 | one legal move never lowers the heuristic by more than it costs |
| Search.OctileIsAdmissible | maploc/src/planner.rs:144-149 | the heuristic never exceeds the cost of a walk to the goal |
| Search.OpenOnEveryPath | maploc/src/planner.rs:186-240 | on every walk to the goal there is an open node whose score is the cost of the walk so far or less |
| Search.TryKeepsTheInvariant | maploc/src/planner.rs:214-238 | trying a move keeps the search's invariant and leaves that move nothing to improve |
| Search.Expand | maploc/src/planner.rs:207-239 | trying the eight moves out of a node relaxes every legal one |
| Search.Reconstruct | maploc/src/planner.rs:187-203 | following the parents strictly decreases the score, so it ends at the start with a walk of legal moves as cheap as the goal's score; the missing parent cannot happen |
| Search.Astar | maploc/src/planner.rs:151-241 | a path returned is a walk of free cells without corner squeezes from start to goal, and none is cheaper; none is returned only when every walk there costs more than an i32 holds or more cells than the cap are reachable |
| Search.NoAnswerMeansUnreachable | maploc/src/planner.rs:151-241 | with scores that fit and a cap no smaller than the grid, no answer means no walk at all |
| Planner.InflatedObstacles | maploc/src/planner.rs:84-109 | a cell is blocked exactly when a wall lies within the inflation of it |
| Planner.NearestFree | maploc/src/planner.rs:111-141 | the first free cell in row-major order on the innermost ring that has one; none exactly when no ring has |
| Planner.LineOfSight | maploc/src/planner.rs:280-326 | true exactly when every cell of the line and both corners of every diagonal step are free; indexing stays in the grid |
| Planner.MovesAreClear | maploc/src/planner.rs:214-230 | a legal move of the search passes the supercover test |
| Planner.SimplifyPath | maploc/src/planner.rs:246-271 | the greedy reading of the path: every pick but the last is followed by the farthest cell that all cells between are seen up to, and past it the next is not seen; both ends are kept, and short paths come back as they are |
| Planner.GreedyIsUnique | maploc/src/planner.rs:246-271 | of a path there is one greedy reading, so nothing else could have been returned |
| Planner.ClearLineIsSafe | maploc/src/planner.rs:84-109 | a line clear on the inflated mask is a line every cell and corner of which is farther than the inflation from every wall, and conversely |
| Planner.CentreIsInItsCell | maploc/src/planner.rs:76-80 | a waypoint converts back to the cell it stands for |
| Planner.Plan | maploc/src/planner.rs:51-82 | the waypoints are centres of the cells that the greedy reading of a cheapest walk keeps, between where the two ends snap to, and every cell their segments walk is farther than the inflation from every wall; there is none only when an end is off the grid, cannot snap, or no walk joins them |
| LinearSolver.SwapKeepsTheSolutions | maploc/src/optimizer.rs:367-370 | swapping two rows keeps the solutions |
| LinearSolver.EliminationKeepsTheSolutions | maploc/src/optimizer.rs:372-381 | subtracting a multiple of one row from another keeps the solutions |
| LinearSolver.TriangularIsUnique | maploc/src/optimizer.rs:383-391 | a triangular system with no zero on its diagonal has at most one solution |
| LinearSolver.NoPivotIsNearlySingular | maploc/src/optimizer.rs:355-366 | taking the rejected entries out of their column, seen through the row operations so far, makes the given matrix singular |
| LinearSolver.Solve | maploc/src/optimizer.rs:351-392 | a vector returned is the one solution of the given system; a singular matrix gets none; only a matrix within 1e-12, entry by entry, of a singular one can get none |
| LinearSolver.PinnedUnknownStaysZero | maploc/src/optimizer.rs:244-260 | a row of the identity with nothing on the right makes its unknown zero in every solution |
| NormalEquations.AddTerm | maploc/src/optimizer.rs:205-234 | an edge's four blocks and its two parts of the vector are added, whichever nodes it joins, a node to itself included |
| NormalEquations.PartialIsTheCoupling | maploc/src/optimizer.rs:205-234 | the blocks add to the matrix's bilinear form the information between how the edge changes along one vector and along the other |
| NormalEquations.Damp | maploc/src/optimizer.rs:239-242 | the form gains the damping times the inner product |
| NormalEquations.Pin | maploc/src/optimizer.rs:244-260 | rows and columns of held nodes are the identity's, their right side is zero, and every other entry is as assembled |
| NormalEquations.SolvingIsBeingStationary | maploc/src/optimizer.rs:244-267 | a vector solves the pinned system exactly when it leaves the held nodes still and the gradient of the assembled system vanishes along every move that does |
| NormalEquations.StationaryIsCheapest | maploc/src/optimizer.rs:165-267 | with damping and information nowhere negative, that step costs less than every other move that leaves the held nodes still, in squared residuals linearized plus damping |
| NormalEquations.PinnedIsDefinite | maploc/src/optimizer.rs:239-260 | along any direction the pinned matrix has at least the smaller of the damping and 1 |
| NormalEquations.NeverNearlySingular | maploc/src/optimizer.rs:239-267 | with damping above 1e-12 times the number of unknowns no singular matrix is within 1e-12 of the pinned one, entry by entry |
| Optimizer.PlanarMovesAreExact | maploc/src/optimizer.rs:199-203 | moving two nodes in the plane changes what lies between them exactly as the Jacobians say |
| Optimizer.ResidualIsZeroIff | maploc/src/optimizer.rs:168-174 | of the angles only that of no turn being zero, an edge's residual is zero exactly when what lies between its nodes is what was measured |
| Optimizer.ResidualMovesExactly | maploc/src/optimizer.rs:168-203 | the residual at moved nodes is the residual before plus what the Jacobians say, for any steps of the two and a turn of the second whose angle adds up |
| Optimizer.TurningTheFirst | maploc/src/optimizer.rs:197-203 | a turn of the first node changes what lies between by its sine times the Jacobian's column and by what its cosine lacks of one |
| Optimizer.HuberGrowsLinearly | maploc/src/optimizer.rs:182-195 | past the threshold an edge costs the threshold times its residual in sigmas, below it the square |
| Optimizer.PlanarStepIsBest | maploc/src/optimizer.rs:153-283 | where nothing is reweighted, a damped step that turns no node leads to nodes where the real squared residuals, plus the damping, cost less than where any other planar move that leaves the fixed nodes still leads to |
| Optimizer.RestingStay | maploc/src/optimizer.rs:153-283 | nodes between which lies all that was measured stay where they are through any number of iterations |
| Optimizer.Apply | maploc/src/optimizer.rs:269-296 | every free node moves by its three increments and no other moves, and the largest step and the widest turn are both below their thresholds exactly when every free node's are |
| Optimizer.Build | maploc/src/optimizer.rs:153-260 | the matrix and vector built in place are the system of all the edges at the nodes' poses, damped and pinned |
| Optimizer.Iterate | maploc/src/optimizer.rs:153-267 | an iteration's increments are the one step that balances the normal equations and leaves the held nodes still, the cheapest one when damped; none only when the system is nearly singular |
| Optimizer.MovingKeepsTheHeld | maploc/src/optimizer.rs:269-283 | however many steps are applied, a fixed node stays and nothing but free poses changes |
| Optimizer.SolveGraph | maploc/src/optimizer.rs:136-303 | every step applied is its iteration's step at the poses the steps before it left; it stops at the first small one, the first nearly singular system or the limit; edges are untouched and fixed nodes stay; with enough damping and information nowhere negative no system is refused; a planar step leads to the cheapest nodes a planar move can lead to, by the real residuals; nodes that meet every measurement are left where they are |
| Optimizer.WorstEdge | maploc/src/optimizer.rs:103-126 | the first of the live loop edges with the largest weighted squared residual at the nodes' poses, none exactly when there is none |
| Optimizer.DisowningKeepsTheChain | maploc/src/optimizer.rs:103-131 | what is disowned are loop edges, each once; every other edge, and the ends and measurement of all, stay |
| Optimizer.Optimize | maploc/src/optimizer.rs:95-133 | at most `reject_max` edges lose their information, each the worst outlier at the poses the solve before it left, and fewer only when no outlier is left there; every solve is over the edges still owned, and the result is that of the last; never a chain edge, and fixed nodes do not move |
| LinearAlgebra.CongruenceKeepsTheForm | maploc/src/uncertainty.rs:91-96 | a symmetric matrix carried through a map stays symmetric, and its form along a direction is the old form along the direction that one comes from |
| LinearAlgebra.ScaledInverse | maploc/src/uncertainty.rs:211-236 | the adjugate over the determinant undoes the matrix on both sides |
| Covariance.PredictOnlyAdds | maploc/src/uncertainty.rs:82-97 | a motion step keeps the covariance symmetric and positive, and no direction ends below what was carried into it |
| Covariance.JacobianTurnsTheStep | maploc/src/uncertainty.rs:85-87 | turning the heading moves the end of a step by the sine times the Jacobian's last column and by what the cosine lacks of one; a shift of the start is a shift of the end |
| Covariance.NoiseAddsUp | maploc/src/uncertainty.rs:88-95 | steps that turn the same way spread together as much as one as long and as wide |
| Covariance.NoiseOfAMetreAndOfARadian | maploc/src/uncertainty.rs:88-95 | a metre straight on spreads by the variances per metre, a radian on the spot by that per radian, either way |
| Covariance.AccumulateHessian | maploc/src/scan_matcher.rs:255-295 | the normal matrix's form along any direction is exactly the sum of squares of what the used beams say along it, so it is symmetric and positive |
| Covariance.RowIsTheSlope | maploc/src/scan_matcher.rs:284-288 | a shift and a turn of the body move a beam's end along the field's gradient by what the beam's row says, but for what the cosine lacks of one |
| Covariance.WindowInformationIsPositive | maploc/src/uncertainty.rs:100-113 | a window's information is symmetric and positive, and never more than its beams at the residual floor |
| Covariance.WeightCountsTheIndependent | maploc/src/uncertainty.rs:104-105 | however many beams were used they count as the independent ones at most, each worth one over the floored residual squared |
| Covariance.InvertIsTheInverse | maploc/src/uncertainty.rs:211-236 | an inverse undoes the matrix on both sides and keeps symmetry |
| Covariance.RegularizedIsClose | maploc/src/uncertainty.rs:203-209 | the floor keeps the covariance positive, lowers no direction and raises none by more than 1e-8 of its length squared |
| Covariance.InformationNeverRaises | maploc/src/uncertainty.rs:117-126 | adding information to a prior leaves no direction with more variance |
| Covariance.FuseNeverRaises | maploc/src/uncertainty.rs:117-126 | fusing keeps the covariance symmetric and positive, raises no direction above the regularized prior, and its inverse is the prior's information plus the window's |
| Covariance.UnseenDirectionStays | maploc/src/uncertainty.rs:117-126 | what the window says nothing about keeps its covariance |
| Covariance.FuseNeverRaisesTheCovarianceIff | maploc/src/uncertainty.rs:117-126 | of every positive covariance: no window raises a direction above it exactly when its floored form cannot be inverted or no diagonal entry is below the floor |
| Covariance.FromInformationIsCapped | maploc/src/uncertainty.rs:130-139 | a covariance from a window alone is positive, and under the cap whenever the cap can be inverted |
| Covariance.CapHoldsIff | maploc/src/uncertainty.rs:130-139 | of every positive cap: every window's covariance is under it exactly when it can be inverted |
| Covariance.SmallCapCapsNothing | maploc/src/uncertainty.rs:130-139 | an input on which it is not under the cap |
| Covariance.RunStaysPositive | maploc/src/mapper.rs:1219-1223 | over any run of steps, fused windows and relocalizations the covariance stays symmetric and positive |
| Resampling.Mcl.SystematicResample | maploc/src/mcl.rs:840-868 | as many particles as before, each the one whose stretch of the weights its tooth falls in; without weight they stay; every particle is drawn within one of its share |
| Resampling.CopiesAreTeeth | maploc/src/mcl.rs:858-865 | a particle's copies are the teeth in its stretch of the running sum |
| Resampling.TeethAreShares | maploc/src/mcl.rs:855-860 | the teeth stand at equal shares of the total weight, all as far into theirs as was drawn |
| Resampling.CopiesAreWithinOneOfTheShare | maploc/src/mcl.rs:840-868 | the copies of a particle differ from n times its share by less than one, or by at most one when the comb starts at zero |
| Resampling.FirstParticleIsCopiedForNothing | maploc/src/mcl.rs:855-862 | where the strict bound fails: a comb that starts at zero copies a first particle that has no weight |
| Resampling.WeightlessAreLeftIff | maploc/src/mcl.rs:840-868 | no particle without weight is copied exactly when the comb starts above zero or the first particle has weight |
| Resampling.SuchACombExists | maploc/src/mcl.rs:855-862 | an input on which that happens |
| Resampling.Mcl.ResetWeights | maploc/src/mcl.rs:796-801 | equal weights |
| Poses.ComposeIsAssociative | maploc/src/pose_graph.rs:79-88 | poses compose associatively |
| Poses.InverseUndoes | maploc/src/pose_graph.rs:91-96 | an inverse inverts on both sides |
| Poses.BetweenThenCompose | maploc/src/pose_graph.rs:101-109 | composing with a relative pose gives back the pose it was taken of, and conversely |
| Poses.InverseOnTheRight | maploc/src/pose_graph.rs:90-96 | if c is a then b, a is c then the inverse of b |
| Poses.BetweenMovesAlong | maploc/src/pose_graph.rs:101-109 | moving two poses together leaves one as the other sees it |
| Poses.OdometryTelescopes | maploc/src/pipeline.rs:224-236 | any sequence of readings moves the tracked pose by the step between the first and the last |
| Poses.OdometryFrameDoesNotMatter | maploc/src/pipeline.rs:221-236 | whatever frame the readings are in |
| PoseGraphs.PoseGraph.AddNode | maploc/src/pose_graph.rs:41-49 | the node goes last, and only the first is fixed |
| PoseGraphs.PoseGraph.AddEdge | maploc/src/pose_graph.rs:51-53 | the edge goes last |
| Submaps.Submap.IntegrateScanWeighted | maploc/src/submap.rs:187-231 | every cell is what the lines of the beams of a cell or longer leave of it, beam after beam, from the placed origin to the placed end, as many times over as there are passes and once at least, each line a miss where it passes and a hit where it ends; the scan is stored once, exactly when some such beam reached the grid and there is room, and otherwise the grid is as before |
| Submaps.Submap.IntegrateBeam | maploc/src/submap.rs:208-218 | one beam inks its line, a hit at the end, and a beam shorter than a cell inks nothing |
| Submaps.Submap.OneBeamOverAndOver | maploc/src/submap.rs:207-220 | one beam, n times: the cell it ends in holds its evidence raised by 85 n up to 400, a cell on the way lowered by 40 n down to -400, and any other what it held |
| Submaps.PlacedThroughTheAnchor | maploc/src/submap.rs:203-217 | a point placed through the pose seen from the anchor lies, the anchor put back, where the body saw it |
| Submaps.SubmapManager.Tick | maploc/src/submap_manager.rs:144-171 | opens, idles, re-anchors or freezes as the switch condition and the content say; a frozen submap holds ink and the new one stands empty at the tracked pose |
| Submaps.SubmapManager.SwitchByDistance | maploc/src/submap_manager.rs:183-200 | in metres: a switch is due when asked for, far enough, or old enough and at all away |
| Sorting.BySorts | maploc/src/loop_closer.rs:206-207 | the library's sort: descending, with the same elements |
| Sorting.ByIsStable | maploc/src/loop_closer.rs:206-207 | ... none lost or repeated, and equal keys in the order they came |
| LoopCloser.WitnessesAreTheStrongest | maploc/src/loop_closer.rs:200-227 | the witnesses are the largest different observations that are large enough, up to the limit |
| LoopCloser.PickWitnesses | maploc/src/loop_closer.rs:206-227 | the loop picks those |
| LoopCloser.TrueMatchesAgree | maploc/src/loop_closer.rs:289-291 | a match implies an anchor exactly when it puts the scan where it was taken if the submap stood there, so true matches all imply the same |
| LoopCloser.TrueWitnessesAgree | maploc/src/loop_closer.rs:240-321 | witnesses that are all matched where they were taken agree, on the true anchor |
| LoopCloser.TestifiesByBeams | maploc/src/loop_closer.rs:262-285 | a match with a fair residual testifies exactly when it used enough beams and of the valid ones enough were observed |
| LoopCloser.WorstIsTheLargest | maploc/src/loop_closer.rs:286 | the residual of the consensus is the largest of the matches', attained by one |
| LoopCloser.PlausibleByDistance | maploc/src/loop_closer.rs:331-359 | in metres: a correction worth making and within what drift over the gap and the cap allow |
| LoopCloser.Confer | maploc/src/loop_closer.rs:228-321 | two witnesses or more agree exactly when every match passes the gates and every implied anchor is near the mean of all, which is then the anchor, with the worst residual |
| LoopCloser.ClosuresAreThose | maploc/src/loop_closer.rs:165-380 | one closure, in order, for every older submap more than the gap away that is near enough and agreed on a plausible correction, and no other |
| LoopCloser.DetectLoops | maploc/src/loop_closer.rs:165-380 | the loop over the submaps, gate by gate, finds those |
| Pipeline.LinksAreTheChain | maploc/src/optimizer.rs:104 | with a gap of one or more, the optimizer's test tells links from closures |
| Pipeline.SigmasCostTheirSquares | maploc/src/pose_graph.rs:124-132 | an edge of given sigmas costs the sum of the squares of its residual in sigmas |
| Pipeline.DisowningSparesTheLinks | maploc/src/optimizer.rs:95-133 | of chained edges the optimizer leaves every link as it is, and changes no more of a closure than to disown it |
| Pipeline.Slam.constructor | maploc/src/pipeline.rs:123-137 | a new pipeline is wired |
| Pipeline.Slam.FromSession | maploc/src/pipeline.rs:141-175 | a wired session resumes wired, with the last edge from the node before found as the edge into the current one; where it had its chain and so many closures, that many are counted again exactly when no submap was open or none had frozen |
| Pipeline.ResumedCountIsOneTooHigh | maploc/src/pipeline.rs:143-147 | the count of closures resumes right exactly when no submap was open or none had frozen, and one too high otherwise |
| Pipeline.FindLast | maploc/src/pipeline.rs:157-162 | the last edge from one node to another, none exactly when there is none |
| Pipeline.Slam.SetTracked | maploc/src/pipeline.rs:184-192 | the pose is overwritten, the next reading starts afresh, and a jump is remembered |
| Pipeline.Slam.ObserveOdom | maploc/src/pipeline.rs:224-238 | the tracked pose moves by the step between two readings |
| Pipeline.Slam.FollowReanchor | maploc/src/pipeline.rs:251-283 | the node of a re-anchored submap follows it; the edge into it measures what is now between them, is as sure as a relocalization if the anchor moved half a metre and as sure as before if not, and no other edge changes; the wiring holds again |
| Pipeline.Slam.OpenNode | maploc/src/pipeline.rs:286-316 | a new submap's node goes last, linked to the one before by an edge that measures what lies between, as sure as odometry or, after a jump, as a relocalization; the wiring holds again |
| Pipeline.Slam.AddClosures | maploc/src/pipeline.rs:318-333 | every closure becomes an edge between its submaps' nodes, in order, after the edges there were, counted, with its sigmas widened in proportion when the residual of its match is larger |
| Pipeline.Slam.MoveAnchors | maploc/src/pipeline.rs:334-345 | nodes and edges are what the optimizer makes of them, and every anchor follows its node; held nodes and links stay; with enough damping the optimizer converged or used all its iterations, since no edge of the pipeline ever counts negatively |
| Pipeline.Slam.Settle | maploc/src/pipeline.rs:334-363 | nodes and edges are what the optimizer makes of them, after a jump with the last node alone put back; the tracked pose keeps its place in the current submap, or after a jump neither moves; the first node stays, an edge stays or is a closure disowned, every anchor is its node's pose |
| Pipeline.Slam.CloseLoops | maploc/src/pipeline.rs:318-365 | counted are exactly the closures there are of the submap frozen last; with none nothing changes, with any the edges gain exactly theirs and nodes and edges are what settling makes of them |
| Pipeline.Slam.Tick | maploc/src/pipeline.rs:247-368 | the wiring is kept. Without a switch the graph is as it was; a re-anchored submap moves its node and the edge into it; an opened one adds its node at the tracked pose and its link, and where a submap froze beside another, exactly the closures there are of it are counted and added, and if there is any the optimizer has its say on the whole. The tracked pose moves only with the current anchor, by a closure without a jump |
| Pipeline.Slam.IntegrateWeighted | maploc/src/pipeline.rs:378-383 | inking keeps the wiring; the current submap gains the scan as `Submap.IntegrateScanWeighted` says, and nothing else changes |
| Mapping.StandsStillIff | maploc/src/pipeline.rs:224-238 | the tracked pose stands still exactly when there is no reading before or no step since |
| Hypotheses.Update | maploc/src/mapper.rs:1583-1651 | carrying, proposing, scoring, ranking and cutting off, as the loops do it |
| Hypotheses.UpdatedAreGrounded | maploc/src/mapper.rs:1583-1651 | over any windows a place has at most one hit for each window since it was first proposed, and its travel is the farthest any reading since has been from that one; places are ranked by hits |
| Hypotheses.PlacesStandWhereProposed | maploc/src/mapper.rs:1583-1651 | over any windows every place kept is where some window proposed it, moved by the odometry since that window |
| Hypotheses.LeaderHasEarnedIt | maploc/src/mapper.rs:1675-1687 | a place nominated is three hits ahead of every other, has been there for enough windows, and the body has been a metre from where it was first proposed |
| Mapping.Mapper.constructor | maploc/src/mapper.rs:992-1056 | lost, with the carried pose as seed, exactly when the map holds a submap |
| Mapping.Mapper.ResumedLost | maploc/src/mapper.rs:922-926 | one that boots on a map is lost, booting, with no evidence gathered |
| Mapping.Mapper.ArmSuspicion | maploc/src/mapper.rs:1061-1071 | the carried pose becomes the seed, and every count starts again |
| Mapping.Mapper.SearchAfresh | maploc/src/mapper.rs:939-974 | the original settings are put away once, however often it is called; no giving up; the shadow it starts has the original settings and never rests |
| Mapping.Mapper.Distrust | maploc/src/mapper.rs:983-990 | the pose is untrusted and booted on, with no evidence gathered |
| Mapping.CarriedSeedIsTheSame | maploc/src/mapper.rs:1390-1473 | a seed carried to now implies the same pose as before wherever the body goes next |
| Mapping.Mapper.JudgeSeed | maploc/src/mapper.rs:1390-1473 | the window's one verdict is booked, and a seed left is the same seed; tracking resumes on it exactly when two windows in a row agreed with it and it is unique, or when too many could not judge it, never the latter on a resumed map or after a fall; otherwise the seed and its counts are exactly what the verdict makes of them |
| Mapping.Mapper.JudgePending | maploc/src/mapper.rs:1486-1540 | tracking resumes on the candidate exactly when this window confirms it, it is pinned down and, at a boot, the body has moved half a metre; otherwise it is dropped, unless the body has only to move on |
| Mapping.Mapper.GiveUp | maploc/src/mapper.rs:1542-1552 | odometry's pose is resumed unverified exactly at one window more than the limit of a loss by the watchdog, never at a boot or after a fall |
| Mapping.Mapper.SearchWindow | maploc/src/mapper.rs:1553-1727 | a search nominates a candidate only where none is pending, from where the body stands; at a boot the leader of the places weighed anew, which has earned it; otherwise one that enough searches in a row agreed on |
| Mapping.Mapper.Seek | maploc/src/mapper.rs:1377-1728 | the window is counted, its verdict booked, and tracking resumes exactly where the seed, the candidate or the give-up says, or the search is exactly what the three leave of it and nothing is inked or moved; a boot ends only confirmed, by two windows on the seed or on a candidate that had earned its nomination, never unverified |
| Mapping.SoughtEndsIff | maploc/src/mapper.rs:1377-1552 | the search ends exactly on a seed confirmed or given up, or, unless the window holds the seed, on a candidate confirmed or one window too many |
| Mapping.BootEndsConfirmed | maploc/src/mapper.rs:1377-1552 | a window that ends a boot confirmed the seed for the second time in a row, or a candidate that had earned its nomination |
| Mapping.Mapper.Vet | maploc/src/mapper.rs:1730-1897 | a contradicting window inks nothing and moves nothing, and lengthens the run; tracking is lost exactly when the run of contradictions since it last resumed is as long as configured; any other window ends the run, corrects the pose and is inked unless held |
| Mapping.Mapper.CorrectAndInk | maploc/src/mapper.rs:1816-1897 | the window's correction is applied once, and it is inked once, but while the settling, counted window by window, holds it |
| Mapping.Mapper.ResumeAt | maploc/src/mapper.rs:2129-2188 | tracking resumes there with nothing of the search left, the original settings come back, the watchdog's count starts afresh, and a map set frozen is not touched; on a resumed map or after a fall the settling comes before the ink |
| Mapping.Mapper.Ink | maploc/src/mapper.rs:2310-2319 | nothing is inked on a map set frozen |
| Mapping.Mapper.WatchWindow | maploc/src/mapper.rs:2047-2126 | a watch books its one verdict and neither inks nor moves the pose; a drift ends the rest, and the pose becomes untrusted exactly at the configured number of contradictions in a row, with no agreeing or unjudged watch between; otherwise the rest goes on with the next watch due at once or after its pause |
| Mapping.Mapper.Wake | maploc/src/mapper.rs:2021-2039 | the rest ends and the stand begins its wait again |
| Mapping.Mapper.RestStep | maploc/src/mapper.rs:1946-2015 | a rest begins exactly on a stand long enough, with no job, tracked and settled, and goes on exactly until the stand is over, a job asks or the pose is lost; it makes the pose untrusted only through a loss during the rest or a push past a nudge from where the rest began |
| Mapping.Mapper.Absorb | maploc/src/mapper.rs:1371-1897 | what every window does: a verdict while resting, nothing with too few beams, on an empty map or while untrusted without a job, a step of the search while lost, and otherwise a contradiction counted or a correction and ink |
| Mapping.Mapper.CloseWindow | maploc/src/mapper.rs:1248-1257 | a window is absorbed exactly when there are frames, the stand is over or the window has been open for its time, and the frames gave one; frames of a due window are gone, and otherwise nothing changes |
| Mapping.Mapper.AfterWindow | maploc/src/mapper.rs:1258-1291 | the stand, the suspicion after a sit or a fall, and a rest or its end, exactly; the map and the pose stay |
| Mapping.Mapper.TickStep | maploc/src/mapper.rs:1293-1324 | the pipeline ticks once, unless the pose is a guess or the map is frozen; a closure redraws the map of the stand and drops the frames |
| Mapping.Mapper.Frame | maploc/src/mapper.rs:1328-1369 | a frame inks nothing while lost, resting or frozen, and is dropped while untrusted with no job asking |
| Mapping.Mapper.Observe | maploc/src/mapper.rs:1194-1324 | a call is, step by step and each exactly: odometry, a walking duck's correction and the shadow's seed; the window absorbed exactly when it is due; the stand, the suspicion and the rest; the pipeline's tick. And over every call: untrusted means booting means lost; a boot ends only confirmed by what was known when the call began, nothing unverified then; a frozen map is not touched, nor any while lost unless the call resumes; a pose turns untrusted only for the three reasons; track is lost only by a contradiction booked in this call that ends a run exactly as long as configured; of the account that these runs are counted in a call adds one verdict of its window at most, and starts the watchdog's afresh only on a resume, the watches' only with a rest; a shadow never grows a shadow |
| Mapping.Mapper.SetFrozen | maploc/src/mapper.rs:2299-2301 | freezing keeps every mode |
| Simulation.SetTracked | maploc/src/pipeline.rs:184-192 | the pipeline's call is the stand-in's, and touches neither graph nor submaps |
| Simulation.ObserveOdom | maploc/src/pipeline.rs:224-238 | the same of an odometry reading |
| Simulation.Tick | maploc/src/pipeline.rs:247-368 | whatever a tick of the pipeline comes to is an answer the stand-in may get: a submap more or not, so many loops closed, the tracked pose where they moved it |
| Simulation.RequestSubmapSwitch | maploc/src/pipeline.rs:243-245 | a switch asked for changes nothing the mapper reads |
| Simulation.Integrate | maploc/src/pipeline.rs:378-383 | inking changes nothing the mapper reads |
| Bands.OrderDoesNotMatter | maploc/src/band.rs:161-207 | the passes and returns a frame books on a slice do not depend on the order of its rays |
| Bands.FramesInAnyOrder | maploc/src/band.rs:161-207 | bands that were equal are equal after the same rays in any order, columns included |
| Bands.Band.ObserveBeside | maploc/src/band.rs:161-207 | every slice ends at its passes taken off, down to the floor of the clamp, and then its returns added, up to the top; a cell has a column exactly if it had one or a ray came to it; no slice is ever past the cap |
| Bands.TrailReachesAsFarAsItMay | maploc/src/band.rs:173-192 | a beam clears exactly the samples short of its end, a margin short of a return, and short of the range over the floor |
| Bands.ReturnIsWhereTheBeamEnds | maploc/src/band.rs:193-199 | a beam's end is booked exactly when it is a return within range and in no wall, in the slice of the place the body's pose puts it at |
| Bands.SliceHoldsThePoint | maploc/src/band.rs:145-153 | a point is booked in the slice whose cell and height hold it |
| Bands.Band.Merge | maploc/src/band.rs:224-232 | merging keeps every slice within the cap |
| Bands.Band.Strike | maploc/src/band.rs:344-353 | exactly the kept columns within the radius are cleared |
| Bands.ReachIsEnough | maploc/src/band.rs:341-350 | the square of cells swept holds every cell within the radius |
| Bands.AnchoredBand.Observe | maploc/src/band.rs:300-328 | one layer a submap; the newest is booked at the pose seen from its anchor, and no other changes |
| Bands.AnchoredBand.StrikeAt | maploc/src/band.rs:333-353 | only the newest submap's layer is struck |
| Accumulator.WindowAccumulator.Vote | maploc/src/accumulator.rs:122-142 | a cell's votes are the number of distinct frames with an in-range beam ending in it |
| Accumulator.EndIsInItsCell | maploc/src/accumulator.rs:131-133 | a beam votes for the cell that holds its end, placed by its frame's pose |
| Accumulator.WindowAccumulator.Finish | maploc/src/accumulator.rs:110-196 | exactly the in-range beams with enough distinct frames in the nine cells around their end, all of them when the window is too short to vote, in order, seen from the middle frame |
| Accumulator.WorldEndpointsStay | maploc/src/accumulator.rs:160-187 | a kept beam stands in the world where it stood |
| SessionLog.NumbersRoundTrip | maploc/src/replay.rs:359-369 | little-endian numbers come back |
| SessionLog.TofRoundTrip | maploc/src/record.rs:78-103 | an 8 x 8 frame decodes to itself, zone by zone |
| SessionLog.OdomRoundTrip | maploc/src/record.rs:107-137 | a tick decodes to itself, flag by flag |
| SessionLog.OtherFramesAreRefused | maploc/src/replay.rs:229-240 | of the frames the recorder writes the reader takes exactly the 8 x 8 ones |
| SessionLog.CutLogIsRead | maploc/src/replay.rs:195-225 | a log cut anywhere yields exactly the records wholly before the cut, then the end when fewer than eight bytes are left, an error otherwise |
| SessionLog.LogRoundTrip | maploc/src/replay.rs:195-225 | a whole log comes back record by record |
| SessionLog.SessionRoundTrip | maploc/src/replay.rs:159-185 | what the recorder writes opens, and reads back, cut or whole |
| SessionLog.LogGrows | maploc/src/record.rs:68-76 | appending a record's bytes appends the record |
| SessionLog.SessionRecorder.constructor | maploc/src/record.rs:52-66 | the file header |
| SessionLog.SessionRecorder.Tof | maploc/src/record.rs:78-103 | a frame whose zones do not match its size is refused with nothing written; an 8 x 8 one is written as the record the reader gives back |
| SessionLog.SessionRecorder.Odom | maploc/src/record.rs:107-137 | a tick is written as the record the reader gives back |
| SessionLog.SessionReplayer.Next | maploc/src/replay.rs:195-225 | one step of the log, as the round trips have it |
| SessionLog.SessionReplayer.DecodeTof | maploc/src/replay.rs:229-272 | the frame filled in zone by zone is the payload's |

## Left out

- Rounding of f32 and f64, and NaN beyond the tests the source makes for it.
- Coordinates so extreme that the source's i32 arithmetic would wrap; `Search` and `Planner` ask for a grid whose cells and octile distances fit an i32.
- Square roots: the field in metres, the sigmas of a covariance, the residual's own root.
- `bresenham`'s visitor is a returned sequence of cells; the heap of `astar` is a multiset whose least entry is taken.
- `cast_ray`, the grid's file format, and the submap renderer.
- The fixed three-by-three loops of the covariance filter are written out as expressions.
- The angle of a heading and the square root are given functions, so what a turn does to the angle in a residual is known where angles add up. The cost a solve reports is not modelled.
- Scan matching, relocalization, conditioning, the valley test and the shadow's own asking: their results are given.
- Bands.Band.Merge: the sums are clamped in the order of a hash map, so only the cap is claimed.
- Mapping.Mapper.Observe: the pipeline under the mapper is `Track`, which counts the calls that may change a submap or the graph, and which `Pipeline.Slam` is proved to behave as. The covariance it keeps is `Covariance`, and the odometry behind the still test is given.
- The mapper's own request for a new submap after a large correction: `Simulation.RequestSubmapSwitch` says what it may change, but `Mapping` does not make it.
- Mapping.Mapper.SearchWindow: away from a boot, the distance and angle gates on a search's result are part of the given answer.
- LoopCloser.DetectLoops: the coarse search and the match of a witness are one given answer.
- SessionLog.SessionReplayer.Next: a packet of the prototype's is checked for its size and kept as bytes.
- Files, flushing, clocks, threads, environment switches (taken at their defaults) and debug output.
- The particle filter but for its resampling, the path follower, the depth reprojection and the alignment of maps.
