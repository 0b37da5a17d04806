# Verified model of the planners and of the bill services

This Dafny project models two parts of the repository and proves what they promise.

**Planning.** The Orbit Rush autoplayers (`tools/`) steer a car between falling hazards. The model covers
V7's exact dynamic program over a lane/time grid and its shield rescue, V4's dynamic program over
lane and shield, the beam searches of V8 and V12, V12's latency forecast, corridor extraction and latched
safety guard, the two versions of the guard's target evaluation (V10, V11), and V5's hazard tracking.

**Billing.** The API (`apps/api/src`) lets guests request a bill, staff present it, and cashiers and payment
webhooks race to settle it. The model covers bill requests, bills, settlement, completion of orders, closing
of sessions and the numbering of bills and receipts, as atomic transactions and (for one bill) as single
statements; and the table-attention state with its Redis queue.

JavaScript numbers are `real`, `Infinity` is a constructor of `Numbers.Extended`. `alpha`, the share of the way
to the pointer that the car covers in one step, is a parameter. Square roots and exponentials are function
parameters (`Geometry.Analysis`). Clock readings are parameters. Money is `int`, as in the database.

| module | part of the repository |
|---|---|
| `Numbers`, `Geometry`, `Steering`, `Lanes`, `Sorting` | arithmetic, collision geometry, steering law, lane rounding and stable sort shared by all versions |
| `LayeredDP` | exactness of forward dynamic programming, used by V7 and V4 |
| `ExactPlanner`, `RescuePlanner` | V7: grid, lane window, `normalDP`, `shieldRescueDP` |
| `ShieldPlanner` | V4: `buildPlan` |
| `Reflection`, `Forecast` | V5 and V12 wall reflection; V12 forecasts |
| `Beam`, `Pruning` | V8 and V12 beam search; V8 hazard pruning |
| `GuardEvaluation`, `Corridor`, `Arbiter` | V10, V11 and V12 safety guard |
| `Tracks` | V5 track assignment |
| `OrderSubmission`, `BillTotals`, `BillNumbers` | orders from carts, totals and lines, numbering |
| `BillOperations`, `BillProtocol`, `BillEffects`, `BillDatabase` | transactions as functions, their whole-run invariants, what each needs and changes, and the row-by-row services |
| `SettlementRaces` | one bill under statement-level interleaving |
| `Attention` | table attention and its queue |

Functions without a contract of their own, such as those of `BillOperations`, are pinned down by the lemmas and
methods in the table that state properties of them.

Where source and documentation differ, or a natural claim fails, the model follows the code:

- V7's rounded lane window keeps every legal lane exactly when lanes are more than `0.02 * alpha` apart
  (`ExactPlanner.WindowLosslessIff`). Its 101 lanes always are, as the car covers less than half of the way in a
  step (`alpha` is 1 - exp(-0.625)), so the planner is exact (`ExactPlanner.ShippedSearchIsExact`).
- V4 scans lanes within 0.001 of the reachable interval and accepts pointers within 0.01 of the road, so a
  move is legal under the tighter of the two (`ShieldPlanner.ScannedIffWithinReach`, `ShieldPlanner.TargetIffWithinReach`).
- V8's comment calls its pruning safe. It is for every hazard within the planner's own speed bound of 650 and up
  to size 174 (`Pruning.WithinSpeedBound`); in general exactly for hazards that are not both fast and large, because
  the forecast overruns the horizon by up to one step (`Pruning.PruningLosslessIff`).
- V7's shield rescue keeps 520 states per step. It is exact as long as they all fit, which they do for up to
  four hazards (`RescuePlanner.ShippedBeamIsRoomy`). Beyond that it is as good as every path that never has 520
  rivals (`RescuePlanner.Crowded`).
- Closing a bill request by hand never succeeds: it needs a paid bill, and paying the bill closed the request
  already (`BillProtocol.CloseIsAlwaysRefused`). While transactions are atomic no bill reaches the status `closed`.
- Presenting and cancelling write a bill's status without a guard. With whole transactions atomic that is
  harmless; with statements interleaved a bill paid in full can be presented again
  (`SettlementRaces.PaidBillPresentedAgain`). The ledger survives every interleaving.
- A recalculation of table attention reads the clock twice. If a mute expires in between, the table counts as
  normal whatever it needs (`Attention.HonestUnlessStraddling`, with a run in `Attention.StraddlingHidesACall`).
  A recalculation in progress when a mute is stored undoes it unless it ends up muted with the same deadline
  (`Attention.MuteHoldsIff`, with a run in `Attention.MuteUndone`).

## Model

| member | source | states |
|---|---|---|
| Geometry.CollisionIffNoClearance | tools/orbit-rush-autoplayer-v7-private.js:446-505 | the collision test and the signed clearance agree: a collision is a clearance that is not positive |
| Geometry.CollisionNeedsVerticalReach | tools/orbit-rush-autoplayer-v8-private.js:440-457 | a hazard collides only within half a car height plus its radius vertically |
| Geometry.AlignedCollision | tools/orbit-rush-autoplayer-v8-private.js:440-457 | straight above or below the car that reach is exact |
| Steering.BlendInverse | tools/orbit-rush-autoplayer-v4-private.js:806-831 | the computed pointer takes the car exactly to the wanted position |
| Steering.PointerIffReach | tools/orbit-rush-autoplayer-v7-private.js:852-906 | a pointer lies within a tolerance of the road iff its position lies within alpha times that of the reachable interval |
| Steering.BlendStaysBetween | tools/orbit-rush-autoplayer-v12-latency-corridor-private.js:566-573 | following a pointer inside the road never leaves the road |
| Sorting.StableOrder | tools/orbit-rush-autoplayer-v8-private.js:814-817 | the sort lists every index once, by cost, equal costs in their old order |
| LayeredDP.BestIsLowerBound | tools/orbit-rush-autoplayer-v7-private.js:993-1073 | a table entry never exceeds the cost of any path to its state |
| LayeredDP.TraceAttainsBest | tools/orbit-rush-autoplayer-v7-private.js:1093-1109 | walking the recorded parents gives a path of exactly the table's cost |
| LayeredDP.SelectionIsExact | tools/orbit-rush-autoplayer-v7-private.js:1075-1109 | nothing is selected iff no finite-cost path of full length exists; otherwise the selected cost is the minimum over all of them and the traced path attains it |
| ExactPlanner.CollidersAt | tools/orbit-rush-autoplayer-v7-private.js:665-695 | lists, in order, exactly the hazards in the band that collide in a cell |
| ExactPlanner.BuildColliders | tools/orbit-rush-autoplayer-v7-private.js:647-740 | the table holds that list, in order, for every step and lane |
| ExactPlanner.NearestLaneIsNearest | tools/orbit-rush-autoplayer-v7-private.js:833-850 | no lane is nearer to a position than the one it rounds to |
| ExactPlanner.WindowEndsAreNearest | tools/orbit-rush-autoplayer-v7-private.js:873-906 | the window runs from the lane nearest to one end of the reachable interval to the lane nearest to the other |
| ExactPlanner.WindowHoldsLegalLane | tools/orbit-rush-autoplayer-v7-private.js:833-906 | with lanes more than twice the slack apart, every lane with a legal pointer lies in the scanned window |
| ExactPlanner.NarrowSpacingLosesALane | tools/orbit-rush-autoplayer-v7-private.js:833-906 | with lanes closer together some position has a legal lane outside its window |
| ExactPlanner.WindowLosslessIff | tools/orbit-rush-autoplayer-v7-private.js:833-906 | the window loses nothing, from any position, iff the spacing exceeds 0.02 alpha |
| ExactPlanner.ShippedLanesAreFarApart | tools/orbit-rush-autoplayer-v7-private.js:84-85 | with 101 lanes and alpha below one half, lanes are far enough apart on every road of at least a pixel |
| ExactPlanner.WindowedIffLegal | tools/orbit-rush-autoplayer-v7-private.js:945-968 | under that spacing the paths the search scans are exactly the collision-free, pointer-legal ones |
| ExactPlanner.CanReachIff | tools/orbit-rush-autoplayer-v7-private.js:852-871 | the pointer test passes iff some pointer within 0.01 of the road takes the car to the lane in one step |
| ExactPlanner.LegalIff | tools/orbit-rush-autoplayer-v7-private.js:912-1072 | a path is legal iff every cell on it is free of hazards and reachable, by such a pointer, from the one before |
| ExactPlanner.PathRiskAddsUp | tools/orbit-rush-autoplayer-v7-private.js:970-1063 | a path costs the risks of its cells, 0.0032 per pixel of travel and 0.0011 per pixel between its first lane and the previous target |
| ExactPlanner.PathCostIsRisk | tools/orbit-rush-autoplayer-v7-private.js:970-1063 | a path's cost in the search graph is its risk, infinite iff the search does not scan it |
| ExactPlanner.SteeringLandsOnPlannedLane | tools/orbit-rush-autoplayer-v7-private.js:1115-1126 | steering to the clamped pointer lands within 0.01 alpha of the planned lane, exactly on it iff nothing was clamped |
| ExactPlanner.SearchIsExact | tools/orbit-rush-autoplayer-v7-private.js:1075-1129 | no plan iff no scanned path; otherwise the plan has the minimum risk of all scanned paths and starts on one that attains it |
| ExactPlanner.SearchIsExactOverLegalPaths | tools/orbit-rush-autoplayer-v7-private.js:912-1130 | the same over all legal paths when the lanes are far enough apart |
| ExactPlanner.FirstStep | tools/orbit-rush-autoplayer-v7-private.js:933-991 | the first step's table holds each lane's start cost, infinite where not allowed |
| ExactPlanner.RelaxFrom | tools/orbit-rush-autoplayer-v7-private.js:1020-1069 | one row of the inner loop extends every target's minimum by this predecessor |
| ExactPlanner.NextStep | tools/orbit-rush-autoplayer-v7-private.js:998-1072 | a sweep computes the optimal cost of every lane one step later, with its predecessor |
| ExactPlanner.CheapestLane | tools/orbit-rush-autoplayer-v7-private.js:1075-1087 | the cheapest final lane, the first among equals |
| ExactPlanner.FirstLane | tools/orbit-rush-autoplayer-v7-private.js:1093-1109 | the parent walk ends on the first lane of the optimal path |
| ExactPlanner.NormalDP | tools/orbit-rush-autoplayer-v7-private.js:912-1130 | null iff no admissible path of full horizon exists; otherwise minimum risk, attained by a path from the returned first lane; over all legal paths when lanes are far enough apart |
| ExactPlanner.ShippedSearchIsExact | tools/orbit-rush-autoplayer-v7-private.js:912-1130 | so with the planner's own settings the result is exact over all legal paths |
| ExactPlanner.PathMissesForecast | tools/orbit-rush-autoplayer-v7-private.js:658-740 | a scanned path collides with no forecast hazard at any of its steps, at any height if the hazard fits the band |
| ExactPlanner.PlanForForecast | tools/orbit-rush-autoplayer-v7-private.js:1415-1432 | a plan made on the table of a forecast is exact for it and follows a path that misses every forecast hazard at every step |
| RescuePlanner.RemainingMeaning | tools/orbit-rush-autoplayer-v7-private.js:1194-1204 | exactly the cell's hazards other than the consumed one count |
| RescuePlanner.OnlyConsumedIsHit | tools/orbit-rush-autoplayer-v7-private.js:1205-1225 | every collision along a surviving path is with the single consumed hazard |
| RescuePlanner.UnusedShieldMeansClear | tools/orbit-rush-autoplayer-v7-private.js:1291-1312 | the shield is unused iff the path is collision-free altogether |
| RescuePlanner.SurvivesIff | tools/orbit-rush-autoplayer-v7-private.js:1152-1250 | a path survives the search iff it can be steered and one hazard accounts for every collision on it; it costs its risks, its travel, and the shield iff it collides, and the hazard is then the consumed one |
| RescuePlanner.ChildIsRealized | tools/orbit-rush-autoplayer-v7-private.js:1227-1250 | a stored state is reached by a real path with exactly its cost, consumed hazard and first lane |
| RescuePlanner.DominanceExtends | tools/orbit-rush-autoplayer-v7-private.js:1227-1262 | merging by lane and consumed hazard loses nothing: a state as good as a path stays as good as its extensions |
| RescuePlanner.ExpandState | tools/orbit-rush-autoplayer-v7-private.js:1160-1264 | every child of a state is covered by something no dearer under its key, and only children are added |
| RescuePlanner.SortAndCut | tools/orbit-rush-autoplayer-v7-private.js:1266-1276 | the kept states are the stored ones in order of cost; a state is dropped only if the beam is full of others that cost no more |
| RescuePlanner.RescueStep | tools/orbit-rush-autoplayer-v7-private.js:1152-1281 | a step keeps every state realized, and keeps every surviving path matched by a state unless it was crowded out |
| RescuePlanner.FewHazardsAreRoomy | tools/orbit-rush-autoplayer-v7-private.js:1269-1276 | lanes times (hazards + 1) within the beam width leaves room for every lane and consumed hazard |
| RescuePlanner.ShippedBeamIsRoomy | tools/orbit-rush-autoplayer-v7-private.js:114 | the planner's 520 states leave room for its 101 lanes with up to four hazards |
| RescuePlanner.FullBeamCrowds | tools/orbit-rush-autoplayer-v7-private.js:1266-1276 | a full beam of states that cost no more than a path are as many rivals of it: other lanes or consumed hazards reached as cheaply |
| RescuePlanner.RoomyIsNotCrowded | tools/orbit-rush-autoplayer-v7-private.js:1266-1276 | with room for all lanes and consumed hazards no path is ever crowded out |
| RescuePlanner.SearchRescue | tools/orbit-rush-autoplayer-v7-private.js:1136-1313 | the search in its own terms: a rescue realizes a surviving path, and no uncrowded surviving path is cheaper |
| RescuePlanner.ShieldRescueDP | tools/orbit-rush-autoplayer-v7-private.js:1136-1313 | a rescue follows a steerable path that collides with at most one hazard, for its risk and travel, plus the shield iff it collides; it costs no more than any such path that was not crowded out, so null means that all of them were |
| RescuePlanner.RoomyRescueIsExact | tools/orbit-rush-autoplayer-v7-private.js:1136-1313 | with room in the beam it is the cheapest of all steerable paths that collide with at most one hazard, and null means there is none |
| ShieldPlanner.ReachableLaneRange | tools/orbit-rush-autoplayer-v4-private.js:1008-1040 | the two scans find the window's first and last lane |
| ShieldPlanner.ScannedIffWithinReach | tools/orbit-rush-autoplayer-v4-private.js:1008-1084 | a lane is scanned iff it lies within 0.001 of the reachable interval |
| ShieldPlanner.TargetIffWithinReach | tools/orbit-rush-autoplayer-v4-private.js:806-831 | a pointer is returned iff the lane lies within 0.01 alpha of it |
| ShieldPlanner.PredictionMeaning | tools/orbit-rush-autoplayer-v4-private.js:668-694 | a hazard is predicted where mirroring at the walls takes it, below where it is by its fall at 35 px a second at least and 330 if unknown |
| ShieldPlanner.ScanFindsAnyHit | tools/orbit-rush-autoplayer-v4-private.js:1112-1192 | the scan, which stops at the first hit, reports a collision iff some hazard is hit at the end or the middle of the move |
| ShieldPlanner.ScoreMove | tools/orbit-rush-autoplayer-v4-private.js:1099-1192 | the loop over hazards computes that verdict and the risk gathered before it |
| ShieldPlanner.ClearMoveRisk | tools/orbit-rush-autoplayer-v4-private.js:1099-1192 | a move that hits nothing carries the end and middle risks of all hazards in the band |
| ShieldPlanner.NearPowerIffTouched | tools/orbit-rush-autoplayer-v4-private.js:833-860 | a power is near iff one of that kind in the list is within 40 px sideways and 37 px vertically by then |
| ShieldPlanner.MoveRule | tools/orbit-rush-autoplayer-v4-private.js:1195-1226 | a move is allowed iff it is in reach and the shield is up where it collides; the shield is up afterwards iff it was and nothing was hit, or powers are chased and an Aby is there |
| ShieldPlanner.PlanIff | tools/orbit-rush-autoplayer-v4-private.js:1045-1283 | a lane sequence is a plan iff every move is in reach and every wall met with the shield up, which is lost at walls and comes back only where an Aby of the power list is |
| ShieldPlanner.ShieldIsConserved | tools/orbit-rush-autoplayer-v4-private.js:1195-1226 | along any surviving plan walls met plus the final shield are the initial shield plus the steps at which an Aby of the power list gave it back; so walls never outnumber shield and Abys met |
| ShieldPlanner.PlanCostAddsUp | tools/orbit-rush-autoplayer-v4-private.js:1195-1245 | a plan costs its risk, travel, turns and edges, each at its own weight, the shield once per wall, less its power rewards, and nothing else |
| ShieldPlanner.LegalIff | tools/orbit-rush-autoplayer-v4-private.js:1045-1293 | the plans of the search are exactly those lane sequences, at exactly that cost |
| ShieldPlanner.RunIsPath | tools/orbit-rush-autoplayer-v4-private.js:1225-1275 | every surviving lane sequence is a path of the same cost through lane and shield states |
| ShieldPlanner.PathIsRun | tools/orbit-rush-autoplayer-v4-private.js:1225-1275 | and every finite path is such a sequence |
| ShieldPlanner.StartLane | tools/orbit-rush-autoplayer-v4-private.js:980-993 | the start lane is nearest to the car |
| ShieldPlanner.RelaxMove | tools/orbit-rush-autoplayer-v4-private.js:1079-1275 | one transition updates the cost, parent and control of its target state and no other |
| ShieldPlanner.NextLayer | tools/orbit-rush-autoplayer-v4-private.js:1045-1283 | a step computes the optimal cost of every state, with its parent and a control that leads there |
| ShieldPlanner.Backtrack | tools/orbit-rush-autoplayer-v4-private.js:1302-1327 | the walk back yields the optimal states with controls that fit them |
| ShieldPlanner.ControlsReplay | tools/orbit-rush-autoplayer-v4-private.js:1302-1343 | replaying the controls from the start lane visits exactly the plan's positions |
| ShieldPlanner.OptimumIsLowerBound | tools/orbit-rush-autoplayer-v4-private.js:1285-1293 | the selected cost bounds every legal plan |
| ShieldPlanner.OptimumIsAttained | tools/orbit-rush-autoplayer-v4-private.js:1302-1343 | the states walked back are a legal plan of that cost |
| ShieldPlanner.BuildPlan | tools/orbit-rush-autoplayer-v4-private.js:915-1344 | no result iff no lane sequence meets every wall with the shield up, as lost at walls and restored by Abys of the power list; otherwise the minimum over all of them of risk, travel, turns, edges, shield and rewards, attained by the visited lanes, and controls that steer exactly along them |
| Reflection.BouncesDrop | tools/orbit-rush-autoplayer-v5-private.js:566-580 | mirroring at the nearer wall takes one bounce off the count, so repeated mirroring ends |
| Reflection.WaveSymmetries | tools/orbit-rush-autoplayer-v5-private.js:566-580 | the closed form has period two spans and is symmetric about both walls |
| Reflection.WaveIsMirror | tools/orbit-rush-autoplayer-v5-private.js:566-580 | the closed form equals repeated mirroring at the walls |
| Reflection.ReflectPositionCorrect | tools/orbit-rush-autoplayer-v5-private.js:566-580 | the reflected position lies between the walls, repeats after two spans and is the mirrored position |
| Reflection.MirrorUpToIsMirror | tools/orbit-rush-autoplayer-v12-latency-corridor-private.js:594-604 | a limited number of reflections equals full mirroring iff that many suffice |
| Reflection.BounceBetweenWalls | tools/orbit-rush-autoplayer-v12-latency-corridor-private.js:586-606 | the loop of three reflects that often and negates the velocity once per reflection |
| Reflection.ThreeReflectionsAgreeWithClosedForm | tools/orbit-rush-autoplayer-v12-latency-corridor-private.js:586-606 | V12's loop gives V5's position exactly when the displaced point is within three spans of the road |
| Forecast.PhysicsKeepsUp | tools/orbit-rush-autoplayer-v12-latency-corridor-private.js:518-527 | physics never runs ahead of the wall clock and keeps up with it iff a frame takes at most 35 ms |
| Forecast.SlicesTelescope | tools/orbit-rush-autoplayer-v12-latency-corridor-private.js:653-702 | effective travel summed over slices has a closed form in the elapsed time, whatever the slice length |
| Forecast.TravelComposes | tools/orbit-rush-autoplayer-v12-latency-corridor-private.js:578-628 | travelling on with the advanced HYPE clock continues the same motion |
| Forecast.DriftReturns | tools/orbit-rush-autoplayer-v12-latency-corridor-private.js:653-702 | a hazard off the road at one sample is back where it was, heading the other way, at the next |
| Forecast.BuildPath | tools/orbit-rush-autoplayer-v12-latency-corridor-private.js:653-702 | every sample has the closed-form height and the drifted position |
| Forecast.SamplersAgree | tools/orbit-rush-autoplayer-v12-latency-corridor-private.js:1462-1545 | worker and guard predict the same heights wherever their clocks meet |
| Forecast.AdvanceSnapshotForLatency | tools/orbit-rush-autoplayer-v12-latency-corridor-private.js:538-637 | the snapshot moves by the clamped lead: car, chosen position, hazards with their reflections, pickups and HYPE clock; the rest is carried over, and no lead changes nothing |
| Forecast.LeadThenPlanEqualsPlanLater | tools/orbit-rush-autoplayer-v12-latency-corridor-private.js:575-702 | the lead followed by planning predicts the heights of planning directly at the later time |
| Forecast.HypeClockAdvances | tools/orbit-rush-autoplayer-v12-latency-corridor-private.js:623-628 | the advanced HYPE clock in seconds is the old one less the lead, not below zero |
| Beam.ScanMove | tools/orbit-rush-autoplayer-v8-private.js:574-631 | collects exactly the hazards hit at some sample and adds up the risk of the others |
| Beam.CandidateLanes | tools/orbit-rush-autoplayer-v8-private.js:711-739 | tries exactly the edges, the fan around the nearest lane, and every tenth lane |
| Beam.LanesSpanRoad | tools/orbit-rush-autoplayer-v8-private.js:678-692 | the lanes run from edge to edge, and no lane is nearer to a position than the one it rounds to |
| Beam.HazardMovesOn | tools/orbit-rush-autoplayer-v8-private.js:589-601 | a hazard is sampled on the line between its forecast positions, without jumps from step to step |
| Beam.TransitionIff | tools/orbit-rush-autoplayer-v8-private.js:633-662 | a move is refused iff it hits two hazards that are not the spent one, or one while the shield may not be used or is used; one hazard that is hit otherwise is the one spent, at the shield price, and a move that hits none spends and pays nothing |
| Beam.TryMove | tools/orbit-rush-autoplayer-v8-private.js:741-804 | a move yields no child iff it hits two unspent hazards at its samples, or one that the shield cannot pay for; else the child of the transition |
| Beam.Store | tools/orbit-rush-autoplayer-v8-private.js:806-810 | a key keeps its cheapest state, and nothing covered before stops being covered |
| Beam.ExpandNode | tools/orbit-rush-autoplayer-v8-private.js:710-811 | every child of a state is covered and only children are added |
| Beam.SortAndCut | tools/orbit-rush-autoplayer-v8-private.js:814-817 | keeps stored states in order of cost; each covered state stays represented or the beam is full of cheaper ones |
| Beam.ExpandBeam | tools/orbit-rush-autoplayer-v8-private.js:706-818 | one step of the search with these guarantees for all children of the beam |
| Beam.HistoryIsReachable | tools/orbit-rush-autoplayer-v8-private.js:706-822 | every state in any beam of the search is reached by a real chain of unblocked transitions |
| Beam.BeamPass | tools/orbit-rush-autoplayer-v12-latency-corridor-private.js:855-1030 | a result is reached by a real full chain of unblocked transitions and is the cheapest child of the last beam; without one, some beam of the search, short of the horizon, has states, and every candidate move out of each hits two unspent hazards, or one that the shield cannot pay for |
| Beam.ChildlessIffAllBlocked | tools/orbit-rush-autoplayer-v8-private.js:741-757 | a beam has no children iff every candidate move out of it is blocked in that sense |
| Beam.PlanMove | tools/orbit-rush-autoplayer-v8-private.js:941-957 | the shield pass runs only after the strict one has met a dead end and only with the shield up; either plan hits nothing but the hazard it spends, and a rescue is reported iff it spends one |
| Beam.MergedIff | tools/orbit-rush-autoplayer-v8-private.js:781-792 | states are merged iff they are nearest to the same lane and have spent the same hazard |
| Beam.PlanIsDriven | tools/orbit-rush-autoplayer-v8-private.js:741-746 | every position of a plan is where following a lane for one step takes the car from the one before |
| Beam.TransitionClears | tools/orbit-rush-autoplayer-v8-private.js:633-662 | an unblocked move hits nothing but the spent hazard, and spends one only if none was spent |
| Beam.PlanIsClear | tools/orbit-rush-autoplayer-v8-private.js:561-838 | along any plan no sample in the band hits a hazard other than the single spent one |
| Beam.StrictPlanIsClear | tools/orbit-rush-autoplayer-v8-private.js:941-948 | a plan of the no-shield pass hits nothing in the band, and collides at no height with a hazard that fits it |
| Beam.BandHidesNothing | tools/orbit-rush-autoplayer-v8-private.js:603-608 | skipping samples outside the band hides no collision with hazards small enough for it |
| Beam.PlanNeverCollides | tools/orbit-rush-autoplayer-v8-private.js:561-838 | so along any plan the car collides at no sample, at any height, with a hazard that fits the band, but for the spent one |
| Beam.PlanCostAddsUp | tools/orbit-rush-autoplayer-v8-private.js:758-782 | a plan costs its near-miss risk hazard by hazard, its travel, its changes of speed, its reversals, the shield once if a hazard was spent, and its preference terms, each at its own weight, and nothing else |
| Beam.MoveRiskByHazard | tools/orbit-rush-autoplayer-v8-private.js:574-631 | the risk of a move, gathered sample by sample, is what its hazards add up to one by one: nothing for the spent one, for samples outside the band, in a collision or beyond the near-miss radius |
| Beam.PlanStaysInRoad | tools/orbit-rush-autoplayer-v8-private.js:678-746 | the car stays between the outer lanes along every plan |
| Beam.ReconstructPlan | tools/orbit-rush-autoplayer-v12-latency-corridor-private.js:832-853 | the parent walk returns a prefix of the chain's targets and its first position |
| Beam.FirstStepIsConsistent | tools/orbit-rush-autoplayer-v12-latency-corridor-private.js:832-853 | the first position is where following the first target takes the car, and both are what V8 carries along |
| Pruning.StepsCoverHorizon | tools/orbit-rush-autoplayer-v8-private.js:910-915 | the forecast covers the horizon and overruns it by less than one step |
| Pruning.BuildHazardPath | tools/orbit-rush-autoplayer-v8-private.js:492-524 | every sample is the drifted position at the height that HYPE leaves |
| Pruning.SampleHeight | tools/orbit-rush-autoplayer-v8-private.js:492-524 | a falling hazard's samples stay between its start and one step below where the pruning rule puts it |
| Pruning.HarmlessThenKept | tools/orbit-rush-autoplayer-v8-private.js:920-927 | a hazard that collides anywhere in the forecast is kept, unless it is both fast and large |
| Pruning.OverrunnerIsMissed | tools/orbit-rush-autoplayer-v8-private.js:920-927 | for every speed and size that is both, some dropped hazard inside a wide enough road collides in the overrun |
| Pruning.PruningLosslessIff | tools/orbit-rush-autoplayer-v8-private.js:910-937 | the rule loses no collision of a given speed and size iff one step of overrun stays above the band or off the car |
| Pruning.WithinSpeedBound | tools/orbit-rush-autoplayer-v8-private.js:475-490 | no hazard up to speed 650 and size 174 is dropped and hit |
| Pruning.Kept | tools/orbit-rush-autoplayer-v8-private.js:922-927 | the filter keeps exactly the hazards the rule keeps, in order |
| Pruning.PruningKeepsHits | tools/orbit-rush-autoplayer-v8-private.js:561-662 | a move hits the same hazards in the pruned scene |
| Pruning.PruningKeepsVerdict | tools/orbit-rush-autoplayer-v8-private.js:561-662 | pruning never changes whether a move is blocked, nor which hazard it spends |
| Pruning.PrunedPlanIsClear | tools/orbit-rush-autoplayer-v8-private.js:899-965 | the plan found on the kept hazards hits none of all hazards in the band, dropped ones included, but for the one it spends, and collides with none that fits the band |
| GuardEvaluation.AllHitsMeaning | tools/orbit-rush-autoplayer-v10-longrun-private.js:1364-1403 | V10's set holds exactly the hazards hit at some sample |
| GuardEvaluation.LeastClearanceMeaning | tools/orbit-rush-autoplayer-v10-longrun-private.js:1364-1403 | its clearance is the minimum over all samples in the band that are not hits |
| GuardEvaluation.EvaluateAll | tools/orbit-rush-autoplayer-v10-longrun-private.js:1364-1403 | the double loop computes both |
| GuardEvaluation.EvaluateCapped | tools/orbit-rush-autoplayer-v11-committed-guard-private.js:1402-1462 | V11's early exit counts min(2, hits) and returns V10's clearance whenever it counts fewer than two |
| Corridor.SampleRows | tools/orbit-rush-autoplayer-v12-latency-corridor-private.js:1617-1642 | one evaluated row per sample across the road |
| Corridor.SamplesSpanRoad | tools/orbit-rush-autoplayer-v12-latency-corridor-private.js:1619-1625 | the samples run evenly from one edge of the road to the other |
| Corridor.SplitCorridors | tools/orbit-rush-autoplayer-v12-latency-corridor-private.js:1659-1673 | the corridors are exactly the maximal contiguous runs of acceptable rows |
| Corridor.NothingAcceptable | tools/orbit-rush-autoplayer-v12-latency-corridor-private.js:1628-1657 | nothing is acceptable iff every sampled target hits two hazards, or one without a shield |
| Corridor.BestClearanceMeaning | tools/orbit-rush-autoplayer-v12-latency-corridor-private.js:1686-1693 | the clearance that counts is the largest of the corridor |
| Corridor.ClearanceDecides | tools/orbit-rush-autoplayer-v12-latency-corridor-private.js:1733-1740 | between corridors with the same ends the scores differ by exactly their best clearances |
| Corridor.DirectionMeaning | tools/orbit-rush-autoplayer-v12-latency-corridor-private.js:1711-1714 | a corridor is ahead iff its centre is within 8 px of the car, else to its side |
| Corridor.WidthIsPreferred | tools/orbit-rush-autoplayer-v12-latency-corridor-private.js:1733-1741 | of two corridors with the same centre the wider scores 0.42 more per pixel |
| Corridor.LockAndReferenceCost | tools/orbit-rush-autoplayer-v12-latency-corridor-private.js:1716-1731 | turning against the locked direction costs exactly 150, distance from the reference 0.018 per pixel |
| Corridor.PlaceCosts | tools/orbit-rush-autoplayer-v12-latency-corridor-private.js:1723-1741 | of two corridors of the same width the scores differ by 0.008 per pixel from the car and by their edge penalties |
| Corridor.EdgePenaltyMeaning | tools/orbit-rush-autoplayer-v12-latency-corridor-private.js:1697-1709 | the edge penalty is due iff the centre is within 72 px of an edge, and grows with the square of what is missing, up to 46 at the edge |
| Corridor.BestCorridor | tools/orbit-rush-autoplayer-v12-latency-corridor-private.js:1679-1754 | the chosen corridor scores at least as high as every other |
| Corridor.NearestRow | tools/orbit-rush-autoplayer-v12-latency-corridor-private.js:1758-1769 | the chosen row is nearest to the corridor's centre |
| Corridor.NearestIsMiddle | tools/orbit-rush-autoplayer-v12-latency-corridor-private.js:1758-1769 | and, as samples are even, a middle one |
| Corridor.AcceptedRow | tools/orbit-rush-autoplayer-v12-latency-corridor-private.js:1644-1657 | a row of a corridor has no hit whenever any row has none, and otherwise one that the shield covers |
| Corridor.CandidateGuardTarget | tools/orbit-rush-autoplayer-v12-latency-corridor-private.js:1609-1779 | null iff nothing is acceptable; otherwise the middle sample of the first best-scoring maximal run, truthfully reported, hit-free if any sample is |
| Arbiter.Guard.constructor | tools/orbit-rush-autoplayer-v12-latency-corridor-private.js:303-308 | the guard starts unlatched |
| Arbiter.Guard.Reset | tools/orbit-rush-autoplayer-v12-latency-corridor-private.js:288-311 | a new run of the game clears the latch |
| Arbiter.Guard.Arbitrate | tools/orbit-rush-autoplayer-v12-latency-corridor-private.js:1781-1940 | a frame changes the state and emits a target as the decision function says, with candidates of scans made on that frame: one whenever an unlatched guard sees an unsafe worker target, one whenever the escape is in danger, or tight and due |
| Arbiter.Guard.LatchOnto | tools/orbit-rush-autoplayer-v12-latency-corridor-private.js:1810-1834 | taking the latch sets target, direction and deadline |
| Arbiter.Guard.Hold | tools/orbit-rush-autoplayer-v12-latency-corridor-private.js:1836-1892 | the road is scanned, towards the held escape and its direction, whenever that escape collides or passes something closer than 8 px, or closer than 28 px and 66 ms after the last plan; otherwise nothing changes |
| Arbiter.FrameSafety | tools/orbit-rush-autoplayer-v12-latency-corridor-private.js:1781-1940 | an unguarded target was evaluated hit-free with the trigger clearance on that frame; a latched state has a target; targets stay in the road; before the deadline a latch holds |
| Arbiter.WorkerTargetMeaning | tools/orbit-rush-autoplayer-v12-latency-corridor-private.js:1781-1794 | the worker target is followed inside the road; without one the target applied before, without that the position of the car |
| Arbiter.LatchesIffUnsafe | tools/orbit-rush-autoplayer-v12-latency-corridor-private.js:1803-1834 | an unlatched guard lets a target through unchanged iff it hits nothing and keeps 28 px clearance, and latches for 300 ms otherwise |
| Arbiter.FreshEscape | tools/orbit-rush-autoplayer-v12-latency-corridor-private.js:1803-1892 | a guard that just latched steers to the corridor it found, else to the worker target, and to a second candidate only if the first is in danger itself |
| Arbiter.ScanMeaning | tools/orbit-rush-autoplayer-v12-latency-corridor-private.js:1609-1779 | a scan finds nothing iff every sample hits two hazards, or one without a shield; what it finds is hit-free if any sample is |
| Arbiter.DangerIsLeftAtOnce | tools/orbit-rush-autoplayer-v12-latency-corridor-private.js:1849-1892 | an escape that collides or has less than 8 px clearance is left on that very frame for the candidate of a scan made on it, so a guarded target is hit-free whenever a sample is; it stays only if the scan finds nothing |
| Arbiter.SafeEscapeIsKept | tools/orbit-rush-autoplayer-v12-latency-corridor-private.js:1859-1892 | an escape neither in danger nor tight and due keeps its target, direction and plan time |
| Arbiter.TightEscapeIsReplanned | tools/orbit-rush-autoplayer-v12-latency-corridor-private.js:1855-1892 | a tight escape that is due moves to the candidate, if there is one, but never turns to the other side |
| Arbiter.TickEffect | tools/orbit-rush-autoplayer-v12-latency-corridor-private.js:1894-1924 | a latched guard counts a frame iff the deadline has passed and the worker target hits nothing and keeps 44 px clearance, starts again at any other, and lets go exactly at the fifth in a row |
| Arbiter.SafeFramesAreConsecutive | tools/orbit-rush-autoplayer-v12-latency-corridor-private.js:1899-1906 | over any run the counter counts consecutive safe latched frames |
| Arbiter.LatchHasOrigin | tools/orbit-rush-autoplayer-v12-latency-corridor-private.js:1810-1834 | every latched state goes back to the frame whose clock set its deadline |
| Arbiter.ReleaseIsEarned | tools/orbit-rush-autoplayer-v12-latency-corridor-private.js:1899-1924 | a latch is released only after the required safe frames in a row and not before its deadline |
| Tracks.GatedPairs | tools/orbit-rush-autoplayer-v5-private.js:377-405 | lists every gated pair of detection and track once |
| Tracks.PairCostMeaning | tools/orbit-rush-autoplayer-v5-private.js:359-405 | a detection off by (a, b) from where its track has moved to costs a² + 1.22 b², and may be matched iff that is at most 125² and the track at most 260 ms old |
| Tracks.SortByCost | tools/orbit-rush-autoplayer-v5-private.js:407 | the same pairs in order of cost |
| Tracks.ChooseGreedily | tools/orbit-rush-autoplayer-v5-private.js:409-424 | the matches are one-to-one, and each pair left out shares a detection or track with a match of no greater cost |
| Tracks.GlobalAssign | tools/orbit-rush-autoplayer-v5-private.js:368-432 | the assignment is one-to-one, maximal and stable over all gated pairs |
| Tracks.FollowMatches | tools/orbit-rush-autoplayer-v5-private.js:445-482 | matched tracks are carried on with clamped, smoothed velocities |
| Tracks.FollowedMeaning | tools/orbit-rush-autoplayer-v5-private.js:445-482 | a followed track is the detection under its old id, one frame older; its velocity moves 0.65 of the way to the observed one, over at least 3 ms, and stops at its limits |
| Tracks.VelocityIsLearned | tools/orbit-rush-autoplayer-v5-private.js:445-482 | matched with a hazard of constant velocity over any number of frames, a track keeps its id and is wrong about the velocity by 0.35 to the number of frames of what it was |
| Tracks.StartRest | tools/orbit-rush-autoplayer-v5-private.js:484-499 | every unmatched detection starts a track with the next id |
| Tracks.Tracker.constructor | tools/orbit-rush-autoplayer-v5-private.js:434-502 | tracking starts with no tracks |
| Tracks.Tracker.UpdateHazardTracks | tools/orbit-rush-autoplayer-v5-private.js:434-502 | a frame replaces the tracks by those of a good assignment |
| Tracks.TracksMatchDetections | tools/orbit-rush-autoplayer-v5-private.js:434-502 | the new tracks stand for the detections one for one |
| Tracks.UpdateKeepsTracksValid | tools/orbit-rush-autoplayer-v5-private.js:434-502 | track ids stay distinct and below the next id; matched tracks keep theirs and grow older, new ones get the next ids in turn, with no sideways and the default downward velocity |
| Tracks.RunKeepsTracksValid | tools/orbit-rush-autoplayer-v5-private.js:434-502 | so over every run of frames, with one track per detection of the last frame |
| BillTotals.BillableIsSubsequence | apps/api/src/bills/bills.service.ts:1394-1401 | billing takes exactly the orders that are not submitted, rejected or cancelled, in their order |
| BillTotals.LineOfItem | apps/api/src/bills/bills.service.ts:1487-1513 | each item of an order is one line, in order, with its ids, quantity, prices, line total and currency |
| BillTotals.TotalsMatchLines | apps/api/src/bills/bills.service.ts:1445-1513 | totals are refused iff two orders or items differ in currency; otherwise the nested sum equals the sum of the lines, the counts match and all lines share the currency |
| BillTotals.RequestAgreesWithBill | apps/api/src/bill-requests/bill-requests.service.ts:1090-1118 | what a bill accepts a request over the same orders accepts, in the same currency; for orders as submitted each accepts iff the other does, for the same amount |
| OrderSubmission.AddItem | apps/api/src/cart/cart.service.ts:147-160 | a new cart item keeps every line equal to unit price times quantity |
| OrderSubmission.ChangeQuantity | apps/api/src/cart/cart.service.ts:240-250 | so does a changed quantity |
| OrderSubmission.RecalculationAgrees | apps/api/src/cart/cart.service.ts:656-704 | when every item passes, the recalculated total is the sum of the stored lines |
| OrderSubmission.Submit | apps/api/src/orders/orders.service.ts:230-290 | a cart becomes an order iff it has items that all pass and no other issue; the order's subtotal is the sum of its lines, all in its currency |
| BillNumbers.PrintThenRead | apps/api/src/bills/bills.service.ts:1335-1358 | reading a printed bill number gives back its sequence number, for every sequence number |
| BillNumbers.ReadThenPrintIff | apps/api/src/bills/bills.service.ts:1335-1358 | printing the number read from a string gives the string back iff it is a canonical bill number |
| BillNumbers.FirstUnusedMeaning | apps/api/src/bills/bills.service.ts:1332-1351 | the number found is the least unused one from the start on |
| BillNumbers.GenerateBillNumber | apps/api/src/bills/bills.service.ts:1315-1352 | the loop ends against every finite set of used numbers and returns an unused one, the least after the latest |
| BillNumbers.IssueKeepsDistinct | apps/api/src/bills/bills.service.ts:1315-1352 | whatever numbers exist, a new one repeats none |
| BillNumbers.IssueKeepsConsecutive | apps/api/src/bills/bills.service.ts:1315-1352 | a branch numbered from scratch has no gaps, and no number comes up twice |
| BillNumbers.FirstFreeSuffixMeaning | apps/api/src/bills/bills.service.ts:1371-1391 | the receipt suffix found is the least unused one |
| BillNumbers.GenerateReceiptNumber | apps/api/src/bills/bills.service.ts:1360-1392 | the loop ends and returns an unused receipt number |
| BillNumbers.BaseIsInjective | apps/api/src/bills/bills.service.ts:1367-1370 | different bill numbers give different receipt base numbers |
| BillProtocol.RequestBillIsGood | apps/api/src/bill-requests/bill-requests.service.ts:122-206 | requesting a bill keeps the invariant |
| BillProtocol.RequestBillIff | apps/api/src/bill-requests/bill-requests.service.ts:131-206 | a request is created iff the session is open, has no active request and something to bill in one currency; it is open and asks for the sum of the stored subtotals |
| BillProtocol.AcknowledgeIsGood | apps/api/src/bill-requests/bill-requests.service.ts:326-373 | acknowledging keeps the invariant and moves nothing back |
| BillProtocol.EnsureBillIsGood | apps/api/src/bills/bills.service.ts:719-865 | creating or getting a bill keeps the invariant |
| BillProtocol.EnsureBillIff | apps/api/src/bills/bills.service.ts:719-798 | it succeeds iff a bill exists already, or the request is active with something to bill in one currency |
| BillProtocol.NewBillCharges | apps/api/src/bills/bills.service.ts:800-865 | a new bill's total, subtotal and line sum agree in one currency, with nothing paid and the next number of its branch |
| BillProtocol.CreationIsIdempotent | apps/api/src/bills/bills.service.ts:719-753 | asking again for a bill, or for a request while one is active, changes nothing |
| BillProtocol.RequestAndBillAgree | apps/api/src/bills/bills.service.ts:719-865 | on any run, while a request is active without a bill and its session still has the same billable orders, in whatever status, its bill can be created, for the requested amount and currency |
| BillProtocol.PresentBillIsGood | apps/api/src/bills/bills.service.ts:867-993 | presenting a bill keeps the invariant and never touches a settled or cancelled one |
| BillProtocol.PresentRequestIsGood | apps/api/src/bill-requests/bill-requests.service.ts:428-500 | the second transaction of presenting keeps the invariant whatever happened since the first |
| BillProtocol.PresentRequestIff | apps/api/src/bill-requests/bill-requests.service.ts:428-500 | it succeeds iff the request is open or acknowledged and its bill is not cancelled; the bill is then presented, or pending iff it was |
| BillProtocol.CancelBillIsGood | apps/api/src/bills/bills.service.ts:995-1056 | cancelling a bill keeps the invariant |
| BillProtocol.CancelRequestIsGood | apps/api/src/bill-requests/bill-requests.service.ts:595-648 | cancelling a request keeps the invariant |
| BillProtocol.CancelRequestIff | apps/api/src/bills/bills.service.ts:691-717 | every active request of a reachable store can be cancelled, and its bill with it |
| BillProtocol.CloseIsAlwaysRefused | apps/api/src/bill-requests/bill-requests.service.ts:562-593 | in a reachable store closing a request by hand always fails |
| BillProtocol.ReceiptsAreComplete | apps/api/src/bills/bills.service.ts:622-630 | in a reachable store the receipt endpoint succeeds iff the bill is paid, and creates nothing, as the receipt exists |
| BillProtocol.MarkPendingIsGood | apps/api/src/online-payments/online-payments.service.ts:318-325 | starting an online payment keeps the invariant |
| BillProtocol.RestorePresentedIsGood | apps/api/src/online-payments/online-payments.service.ts:4789-4795 | giving up an online payment keeps the invariant |
| BillProtocol.SettledRowIsOk | apps/api/src/bills/bills.service.ts:512-521 | a matching guarded write pays the bill in full, once, and agrees with the ledger |
| BillProtocol.SettlementIsGood | apps/api/src/bills/bills.service.ts:340-374 | a settlement from values read at any earlier time keeps the invariant |
| BillProtocol.SettlementIff | apps/api/src/bills/bills.service.ts:340-374 | it commits iff the bill is presented or pending and the amount read is its total; on a settled bill it reports the bill as paid |
| BillProtocol.SettlementEffect | apps/api/src/bills/bills.service.ts:1122-1211 | it completes exactly the served orders of the session, and closes an open session iff every order is then final |
| BillProtocol.NumbersNeverRepeat | apps/api/src/bills/bills.service.ts:1315-1392 | bill and receipt numbers are unique per branch in every reachable store |
| BillProtocol.ReceiptNeedsNoSuffix | apps/api/src/bills/bills.service.ts:1360-1392 | a bill's own receipt number is always free, so no receipt carries a suffix |
| BillProtocol.ReadingSurvives | apps/api/src/bills/bills.service.ts:461-510 | what a settler read of the bill's total stays true however long it waits |
| BillProtocol.StepKeepsOrders | apps/api/src/bills/bills.service.ts:1122-1182 | every step leaves orders as they were submitted, but for their status |
| BillProtocol.StepKeepsWorld | apps/api/src/bills/bills.service.ts:284-614 | every step of a run, with any number of settlers between read and write, keeps the invariant |
| BillProtocol.RunKeepsWorld | apps/api/src/bills/bills.service.ts:284-614 | so does every run |
| BillProtocol.ReachableIsSound | apps/api/src/bills/bills.service.ts:284-1211 | a request is closed iff its bill is paid; paid plus balance is the total; the accepted payments sum to what is paid; a paid bill has exactly one payment, an unpaid one none |
| BillProtocol.ReachableHasOneActiveRequest | apps/api/src/bill-requests/bill-requests.service.ts:141-157 | a session never has two active requests |
| BillProtocol.NothingMovesBack | apps/api/src/bill-requests/bill-requests.service.ts:326-648 | between any two points of a run no request moves back or leaves a final status, and no bill changes its charge or stops being settled or cancelled |
| BillProtocol.SettledOnlyOnce | apps/api/src/bills/bills.service.ts:340-374 | once a settler has committed, every other one that read the bill is refused, on every continuation |
| BillEffects.ReadBillIff | apps/api/src/bills/bills.service.ts:304-329 | a payment is read as acceptable iff the bill exists, is presented or pending, the amount is its balance, and positive if paid by hand; otherwise the error is named by which of these fails |
| BillEffects.SettlementCommits | apps/api/src/bills/bills.service.ts:340-374 | from whatever store, the guarded write matches iff the bill is still presented or pending with the balance that was read |
| BillEffects.SettlementPaysOff | apps/api/src/bills/bills.service.ts:340-454 | a settlement pays exactly its bill, in full, records exactly one payment with its amount and source, closes exactly its request, settles exactly its session, issues one receipt under an unused number, and changes nothing else |
| BillEffects.PaymentOfReachableBill | apps/api/src/bills/bills.service.ts:284-454 | in a reachable store a bill takes a payment iff it is presented or pending and the amount its total, positive if paid by hand; it then has its first and only payment, and its own receipt, and its request is closed |
| BillEffects.PendingAndBack | apps/api/src/online-payments/online-payments.service.ts:318-325 | starting an online payment turns exactly its presented bill pending, giving up turns exactly a pending one back, and the two together change nothing |
| BillEffects.AcknowledgeIff | apps/api/src/bill-requests/bill-requests.service.ts:326-373 | exactly an open request can be acknowledged, and nothing else changes |
| BillEffects.PresentBillIff | apps/api/src/bills/bills.service.ts:927-993 | every bill but a cancelled one can be presented; paid, closed and pending ones stay as they are, any other is presented, and nothing else changes |
| BillEffects.CancelBillIff | apps/api/src/bills/bills.service.ts:995-1056 | exactly an unsettled bill can be cancelled, with a reason unless it is cancelled already; nothing else changes |
| BillEffects.PresentRequestEffect | apps/api/src/bill-requests/bill-requests.service.ts:428-500 | presenting needs an open or acknowledged request with a bill that is not cancelled, turns exactly these two rows, and names its error otherwise |
| BillEffects.CancelRequestEffect | apps/api/src/bill-requests/bill-requests.service.ts:595-648 | exactly an active request without a settled bill can be cancelled, and its bill with it; nothing else changes |
| BillEffects.CloseRequestIff | apps/api/src/bills/bills.service.ts:632-689 | in any store exactly an active request with a paid or closed bill can be closed by hand; both are closed then, and nothing else changes |
| BillEffects.RequestBillOutcome | apps/api/src/bill-requests/bill-requests.service.ts:131-206 | how asking for a bill ends, by session status, active request and billable orders, with each error and the exact row created |
| BillEffects.EnsureBillOutcome | apps/api/src/bills/bills.service.ts:719-865 | how asking for the bill of a request ends, with each error; a new bill is unpaid, lists the items of the billable orders and has the next number |
| BillDatabase.Database.constructor | apps/api/src/bills/bills.service.ts:97-103 | the store starts empty |
| BillDatabase.Database.PresentRequest | apps/api/src/bill-requests/bill-requests.service.ts:428-500 | writes the request first; a cancelled or missing bill then undoes that write |
| BillDatabase.Database.CancelRequest | apps/api/src/bill-requests/bill-requests.service.ts:595-648 | cancels the linked bill first, then the request; a refusal leaves both unchanged |
| BillDatabase.Database.EnsureBill | apps/api/src/bills/bills.service.ts:719-865 | stores a bill with the totals, lines and next number that the transaction function prescribes, or throws and changes nothing |
| BillDatabase.Database.PresentBill | apps/api/src/bills/bills.service.ts:927-993 | presents an unsettled bill, keeps a pending payment pending, and leaves a settled bill alone |
| BillDatabase.Database.CancelBill | apps/api/src/bills/bills.service.ts:995-1056 | cancels an unpaid bill, leaves a cancelled one alone, and throws in the code's order of checks |
| BillDatabase.Database.CommitSettlement | apps/api/src/bills/bills.service.ts:340-454 | the guarded write and the dependent writes, one after another, add up to the settlement function |
| BillDatabase.Database.RecordPayment | apps/api/src/bills/bills.service.ts:284-454 | reading and writing at once: a payment goes through iff the bill is presented or pending, the amount its balance, and positive if paid by hand, and has then exactly the effect of a settlement; otherwise nothing changes and the error says why; in a reachable store the bill has one payment afterwards |
| BillDatabase.Database.CloseLinkedRequest | apps/api/src/bills/bills.service.ts:1058-1120 | closes an active request and leaves any other alone |
| BillDatabase.Database.CompleteServedOrders | apps/api/src/bills/bills.service.ts:1122-1182 | the loop completes every served order of the session and changes no other |
| BillDatabase.Database.CloseSessionIfSettled | apps/api/src/bills/bills.service.ts:1184-1211 | closes the session iff it is open and all its orders are final |
| BillDatabase.Database.EnsureReceipt | apps/api/src/bills/bills.service.ts:1256-1313 | issues a receipt once, and throws for a missing or unpaid bill |
| SettlementRaces.WriteKeepsLedger | apps/api/src/bills/bills.service.ts:512-551 | every write keeps the ledger, whatever was read before |
| SettlementRaces.LedgerSurvivesRaces | apps/api/src/bills/bills.service.ts:289-374 | under every interleaving of statements paid plus balance is the total, the payments sum to what is paid, and money moves at most once |
| SettlementRaces.SettledForGoodIff | apps/api/src/bills/bills.service.ts:900-908 | a settled bill stays settled on every continuation iff no present or cancel that read it earlier has still to write |
| SettlementRaces.PaidBillPresentedAgain | apps/api/src/bills/bills.service.ts:927-993 | a run after which a bill paid in full is presented again |
| Attention.ScoreOfTable | apps/api/src/autopilot/table-attention.service.ts:393-565 | the score is the sum of the points of seven conditions, spelled out in waiting times and open calls, between 0 and 205 |
| Attention.ReasonsMeaning | apps/api/src/autopilot/table-attention.service.ts:393-565 | a reason is given iff its waiting time of 5, 15, 10 or 30 minutes has passed, or there is such an open call |
| Attention.ScoreGrowsWithTime | apps/api/src/autopilot/table-attention.service.ts:402-565 | while nothing changes at the table the score only grows |
| Attention.ScoreTableSession | apps/api/src/autopilot/table-attention.service.ts:393-565 | the scoring collects the applying reasons in order, or none while muted, with their sum |
| Attention.RecalculatedIsOk | apps/api/src/autopilot/table-attention.service.ts:99-154 | a recalculated snapshot gives the reasons of the facts, or none if muted when checked; its priority is urgent from 70, high from 40, medium from 20 points, its status fits its score, and it has a mute deadline iff muted |
| Attention.StaysMutedIff | apps/api/src/autopilot/table-attention.service.ts:605-620 | a recalculation leaves a session muted iff the deadline has not passed when the status is decided, and keeps the deadline |
| Attention.HonestUnlessStraddling | apps/api/src/autopilot/table-attention.service.ts:398-620 | the score is that of the facts, or the session muted, unless the deadline falls between the two clock readings |
| Attention.StraddlingHidesACall | apps/api/src/autopilot/table-attention.service.ts:398-620 | a run in which a mute expires between the two readings and an open waiter call counts for nothing |
| Attention.MutedIsOk | apps/api/src/autopilot/table-attention.service.ts:314-345 | a mute keeps the score and lasts the given minutes, 30 by default |
| Attention.ResolvedIsOk | apps/api/src/autopilot/table-attention.service.ts:233-312 | a resolved snapshot has that status, score zero and no reasons |
| Attention.StoredKeepsQueues | apps/api/src/autopilot/table-attention.service.ts:782-825 | storing a snapshot with its queue write keeps queue and snapshots in agreement |
| Attention.QueueMatchesListing | apps/api/src/autopilot/table-attention.service.ts:567-587 | after every run each branch's queue maps exactly the sessions of the default listing to their stored scores |
| Attention.MuteHoldsIff | apps/api/src/autopilot/table-attention.service.ts:99-154 | before its deadline no recalculation unmutes a session or moves the deadline, on every continuation, iff none that read the session before the mute is still to be stored |
| Attention.MuteUndone | apps/api/src/autopilot/table-attention.service.ts:99-154 | a recalculation begun before a mute and stored after it undoes the mute, whatever it found |
| Attention.Service.constructor | apps/api/src/autopilot/table-attention.service.ts:46-51 | nothing is stored or queued at first |
| Attention.Service.RecalculateForTableSession | apps/api/src/autopilot/table-attention.service.ts:99-187 | the service's writes are those of a recalculation stored at once; only that session's snapshot changes, and an unknown session is refused |
| Attention.Service.MuteTableSession | apps/api/src/autopilot/table-attention.service.ts:314-391 | the service's writes are those of a mute; only that session's snapshot changes, and an unknown session is refused |
| Attention.Service.ResolveTableSession | apps/api/src/autopilot/table-attention.service.ts:233-312 | the service's writes are those of a resolution; only that session's snapshot changes, and an unknown session is refused |
| Attention.Service.WriteRedisState | apps/api/src/autopilot/table-attention.service.ts:782-825 | removes normal and resolved sessions from the branch's queue, and puts all others in under their score |

## Left out

Planning:

- Rounding of floating-point numbers and of typed arrays: coordinates and costs are exact reals.
- Square roots, exponentials and real powers are parameters, as is the share `alpha` of a step.
- The risk table of V7's grid, with near misses, edge penalty and power rewards, and its forecast are inputs of `ExactPlanner` and `RescuePlanner`; the collision table is built from the forecast.
- The emergency plans of all versions, which promise nothing but a position.
- Optimality of the beam searches: their cost depends on the path behind a state and states are merged by lane, so only soundness is claimed.
- Beam.BeamPass: the fan width, which depends on the number of hazards, and the preference terms at the end of a step are parameters; V8 and V12 differ in these.
- Beam.BandHidesNothing: does not model larger hazards, for which the code's band itself skips samples that collide.
- Pruning.PruningKeepsVerdict: covers the blocked verdict and the spent hazard, not near-miss risk, which a dropped hazard may still add; hazards moving up are not covered, as the game has none.
- Reflection.ThreeReflectionsAgreeWithClosedForm: compares loop and closed form for walls in the right order only.
- Corridor.CandidateGuardTarget: a missing clearance (no hazard near any sample) makes the score infinite, and equal infinite scores keep the earlier corridor, as in the code.
- V2, V3, V6 and V9 planners, V12's HUD, canvas hooks, worker messages, host guards and keyboard handling.

Billing:

- BillProtocol.ReachableIsSound: treats each transaction as atomic except that a settlement's read and write are separate steps; single statements are interleaved in `SettlementRaces` for one bill only.
- BillProtocol.SettlementEffect: nothing is claimed about an order being billed at most once over successive bills of a session, as completed orders are billed again.
- Bills are keyed by their bill request, which the database keeps unique; bills without a request, which no code creates, are not modelled.
- BillDatabase: requesting, acknowledging and closing by hand are modelled as transactions in `BillOperations` only, as their statements add nothing.
- OrderSubmission.Submit: stock, availability and modifier rules of the cart are one condition that can only refuse.
- BillDatabase.Database.CommitSettlement: cashier shifts, staff checks, events, notifications, realtime messages and audit records are not modelled.
- BillNumbers.PrintThenRead: sequence numbers are unbounded, so the precision of `parseInt` is not modelled.
- Money beyond 32 bits, which the database column would refuse.
- Online payment intents beyond the two guarded status writes on the bill; refunds.
- Presence of the staff user, trimming of notes and reasons, response mapping, receipt text.
- Attention.StoredKeepsQueues: takes a snapshot and its queue write as one step, although the source awaits them one after the other.
- Attention.QueueMatchesListing: assumes that Redis writes succeed and that a snapshot and its queue entry are written together.
- Expiry of the per-session Redis keys, order of the listing, events, realtime messages and audit records of attention.
