# Route planning and delivery: verified model

A Dafny model of the route optimiser, the planner around it, route progress and the webhook queue of
the GPS navigation platform, with proofs of what they promise. `dafny verify dfyconfig.toml` checks it.

## What is modelled

| modules | part of the platform |
|---|---|
| `Sequences`, `Paths`, `Breaks` | edits of visiting orders, path lengths over an arbitrary metric, and the rule "break as late as possible" with its optimality |
| `Problems`, `Schedules`, `Costs` | the routing problem, `schedulePlan`, `cost` |
| `Slices` | orders as slices of heap storage, and the plans that refer to them |
| `Seeding`, `Destroy`, `Insertion`, `Repair` | the greedy seed, random and Shaw removal, greedy and regret-2 insertion |
| `Solutions`, `TwoOpt`, `Exchange`, `ExchangeSearch`, `OrOpt` | solutions on the heap and the four local searches |
| `Search` | operator choice, one iteration, the whole of `Solve` |
| `LostNodes`, `LosingRuns` | when the segment exchange as written loses nodes, in one search and over whole runs |
| `ServiceRuns` | when whole runs keep every vehicle within its capacities and skills |
| `Heuristics`, `Clustering`, `LegEmission` | the standalone 2-opt, farthest-first clusters, nearest-neighbour tours, numbered drive and break legs |
| `RouteAdvance`, `DrivingLimits` | advancing, assigning and patching a route, in memory and in SQL, and the driving limit of the policy against that of the plan |
| `Webhooks`, `Paging` | the delivery queue with its worker and dead-letter list, and cursor paging |

Places are indices; the haversine formula becomes an arbitrary pseudo-metric on places (non-negative,
symmetric, zero from a place to itself, triangle inequality), passed as part of the problem. Node `i`
stands at place `i`. Amounts are reals. `math.MaxFloat64` is a missing value that every real cost beats;
subtracting a cost from it leaves it what it was, as floats do. Random draws, the deadline, the acceptance
of worse solutions and the answers to webhook calls are arbitrary, so results hold for every run. The
plans of a solution are an object on the heap, because `best := curr` shares it, and its orders are slices of
storage on the heap, because removal rebuilds them and insertion writes within them. The candidate orders of
the local searches are values: the program edits them only in a private copy before a plan refers to it. The
legs of a stored route are an array, because every copy of the route that was given out refers to them.

## Where the code and its intent part

* `orOptLocalImprove` clamps its own loop counter (internal/opt/alns_engine.go:446). `OrOpt.InnerLoopEndsExactly`
  and `OrOpt.WrittenSearchReturnsExactly` show that the written search returns exactly when no plan has two
  nodes, and that it then has nothing to relocate. `OrOpt.OrOptImprove` clamps a separate position; it is what
  `Solve` uses in mode `Intended`. In mode `AsWritten` a regret insertion that returns has relocated nothing.
* `twoOptStarImprove` splices within the storage it reads the tail from (internal/opt/alns_engine.go:560-561).
  `Exchange.AppendTwice` carries out the two appends on that storage. A move that puts two nodes in the place of
  one before a tail, called crooked here, loses the first tail node. `Exchange.MoveConservesExactly` says that a
  move keeps its nodes exactly when it is not crooked. `LostNodes.WrittenSearchKeepsNodesExactly` says that the
  written search keeps the nodes of all solutions with m plans and n served nodes exactly when m < 2 or n < 4, and
  `LosingRuns.WrittenRunsKeepNodesExactly` says the same of runs with m vehicles and n nodes: for any greater
  numbers there is a problem with a solution, on schedule, from which every such search loses a node, and from
  every seed of that problem an iteration does. Mode `Intended` uses the splice that reads the tail first, and never makes a crooked move.
* `curr` is not rolled back when an iteration is rejected (internal/opt/alns_engine.go:124-131); the model does
  not do so either. The seed keeps to capacities and skills, but a node that fits nowhere falls back on a shortest
  plan (internal/opt/alns_engine.go:233-237) and the exchanges look at schedules alone.
  `ServiceRuns.RunsKeepServiceExactly` says that all solutions of all runs with m vehicles and n nodes keep to
  capacities and skills exactly when m < 2 or n = 0, in either mode: for any greater numbers there is a problem on
  which every iteration that takes out node 0 alone gives it to a vehicle without its skill
  (`ServiceRuns.ApartIterationBreaksRules`). `LosingRuns.LineEndBreaksSkills` shows an exchange do the same.
* Schedules are not even guaranteed for the seed, which never looks at them (internal/opt/alns_engine.go:155).
  `Seeding.SeedsOnTimeExactly`: given the windows of all nodes, seeds are certain to be on schedule exactly when
  no node closes. `Search.IterationKeepsSchedules` is a sufficient condition for one iteration to keep a solution
  on schedule.
* The planner counts the driving from zero after each break (internal/store/postgres.go:1172); the policy check adds
  up all driving of the visited legs, whatever the breaks between them (internal/store/postgres.go:766-774).
  `DrivingLimits.CompletesExactly`: without force a route can be completed under a limit exactly when the driving
  before its last leg is below it. `DrivingLimits.BrokenRouteStalls`: so no route with a planned break that goes on
  after the next drive can be completed under the limit it was planned for.
* The configuration reference calls `WEBHOOK_MAX_ATTEMPTS` the number of retries before the dead-letter list
  (README.md:117). The code counts attempts: a delivery that always fails is sent that many times in all.
* The first component that `schedulePlan` returns is named drive seconds (internal/opt/alns_engine.go:390); it is
  the elapsed time with waiting, breaks and service.

## Model

| member | source | states |
|---|---|---|
| Heuristics.PathDistance | internal/opt/heuristics.go:45-53 | the loop computes the path length of the order |
| Heuristics.TwoOptSwap | internal/opt/heuristics.go:35-43 | filling by index yields the order with one segment reversed |
| Heuristics.ImproveOrder2Opt | internal/opt/heuristics.go:12-33 | a permutation with both ends fixed, never longer; afterwards no reversal saves more than 1e-3, or every pass up to the limit saved more than that |
| Sequences.ReverseSegmentInvolution | internal/opt/heuristics.go:35-43 | reversing the same segment twice gives the order back |
| Paths.ReversalChangesTwoEdges | internal/opt/heuristics.go:35-53 | under a symmetric distance a reversal changes the two boundary edges only |
| Problems.PathDistanceNodes | internal/opt/alns_engine.go:494-505 | equals the path length of the standalone heuristic, the extra first leg being zero |
| Schedules.SchedulePlan | internal/opt/alns_engine.go:391-428 | the loop yields the schedule of the specification: elapsed time, distance, lateness and feasibility |
| Schedules.FeasibleMeansNotLate | internal/opt/alns_engine.go:418-427 | feasible exactly when no lateness is reported, and then the distance is that of the whole path from the start |
| Schedules.ScheduleBreaksBest | internal/opt/alns_engine.go:400-412 | planned breaks: fewest among all placements that respect the truncated limit; no unbroken stretch exceeds it unless it is one over-long leg |
| Schedules.FinishCountsBreaks | internal/opt/alns_engine.go:406-427 | without windows to wait for, the finish is driving plus service plus the number of breaks times their length |
| Schedules.ScheduleBreaksEarliest | internal/opt/alns_engine.go:400-427 | without windows to wait for, if any allowed placement of breaks meets all deadlines then the planned one does, and none finishes earlier |
| Schedules.RemovalKeepsFeasible | internal/opt/alns_engine.go:189-201 | without a driving limit, deleting any nodes keeps a feasible plan feasible, with or without a depot |
| Schedules.RemovalSafeExactly | internal/opt/alns_engine.go:400-410 | deleting nodes is safe for every plan exactly when the driving limit is not positive |
| Schedules.WitnessRefutes | internal/opt/alns_engine.go:400-410 | for each positive limit, a plan that a deletion makes late |
| Breaks.LazyStaysAhead | internal/store/postgres.go:1163-1172 | the rule has taken no more breaks than any other choice, or one more while having driven less since |
| Breaks.FewestBreaks | internal/store/postgres.go:1163-1172 | no allowed choice takes fewer breaks |
| Breaks.StretchFits | internal/store/postgres.go:1163-1172 | an uninterrupted stretch fits unless it is a single over-long leg |
| Costs.CostOf | internal/opt/alns_engine.go:292-329 | the loops compute the specified cost |
| Costs.AddPlanCost | internal/opt/alns_engine.go:299-321 | one plan adds its weighted driving, distance and lateness |
| Costs.CountUnserved | internal/opt/alns_engine.go:323-326 | counts the nodes that no plan serves |
| Costs.CostNonNegative | internal/opt/alns_engine.go:292-329 | with the weights that the API accepts no cost is negative |
| Costs.LeastCostBounds | internal/opt/alns_engine.go:292-329 | whatever the weights, plans that serve the same nodes in plans of the same sizes cost at least a fixed amount |
| Insertion.FeasibleAdd | internal/opt/alns_engine.go:331-347 | true exactly when the load with the node stays within both positive capacities and the vehicle has the skills |
| Insertion.FeasibleAddAt | internal/opt/alns_engine.go:349-360 | true exactly when the node can be added and the plan with it inserted is on schedule |
| Insertion.InteriorEstimateExact | internal/opt/alns_engine.go:373-387 | inside a plan the estimate is the change of path length plus service |
| Insertion.AppendEstimate | internal/opt/alns_engine.go:382-386 | at the end it exceeds that by exactly the new leg |
| Insertion.FrontEstimate | internal/opt/alns_engine.go:376-377 | at the front it does so without a depot, and is exact for the path from the depot with one |
| Seeding.NearestAddable | internal/opt/alns_engine.go:152-158 | the first of the cheapest unused nodes that can be added, if there is any |
| Seeding.SeedRound | internal/opt/alns_engine.go:149-168 | a round assigns something, or no unused node can be added to any plan |
| Seeding.GreedySeed | internal/opt/alns_engine.go:144-172 | terminates, appending within storage of its own; each node at most once, every vehicle within capacity and skills, and no node left out that could be added |
| Seeding.SeedsOnTimeExactly | internal/opt/alns_engine.go:144-172 | for any windows of the nodes, seeds are certain to be on schedule exactly when none of the nodes closes; otherwise there is a problem with these windows whose every seed is late |
| Destroy.PickRandomNodes | internal/opt/alns_engine.go:174-187 | distinct assigned nodes, k of them or all |
| Destroy.SortByScore | internal/opt/alns_engine.go:605-609 | the exchange sort orders the scores and permutes the entries |
| Destroy.ShawRemoval | internal/opt/alns_engine.go:583-613 | assigned nodes, min(k, all) of them; none left in place is more related to the seed node than one taken |
| Destroy.RemoveNodes | internal/opt/alns_engine.go:189-201 | deletes exactly the given nodes; unless nothing is removed, the plans and the storage of every order are freshly allocated, no two orders sharing any |
| Slices.Append | internal/opt/alns_engine.go:160-160 | appending writes within the slice's storage while there is room, else in fresh storage |
| Slices.Insert | internal/opt/alns_engine.go:243-244 | the overlapping append and the assignment after it insert the node at its position, within the storage while there is room |
| Destroy.RemovalTakesExactly | internal/opt/alns_engine.go:189-201 | if each node was served once, what is left and what was removed make up what was served |
| Repair.GreedyChoice | internal/opt/alns_engine.go:260-270 | the cheapest feasible insertion over all nodes, plans and positions, the first one among equals; none exactly if nothing fits |
| Repair.RankSlots | internal/opt/alns_engine.go:214-223 | the cheapest slot of a node and the two least of its feasible costs |
| Repair.RegretNeverNegative | internal/opt/alns_engine.go:224-225 | the clamp of a negative regret never fires |
| Repair.RankingUnique | internal/opt/alns_engine.go:214-223 | the feasible costs determine the ranking |
| Repair.RegretChoice | internal/opt/alns_engine.go:208-231 | the first node of the largest regret, at its cheapest slot |
| Repair.ShortestPlan | internal/opt/alns_engine.go:233-234 | the first of the shortest plans |
| Repair.PlaceNode | internal/opt/alns_engine.go:240-246 | inserts the node at its position, writing only within the storage of that plan's order or in fresh storage; as no two plans share storage the other orders stay |
| Repair.InsertNodes | internal/opt/alns_engine.go:203-248 | follows the rule node by node until none waits, writing only within the plans' own storage; the plans then serve what they served and all removed nodes |
| Repair.InsertsConserves | internal/opt/alns_engine.go:203-289 | at every stage of every insertion the plans and the waiting nodes are the same nodes together |
| Repair.InsertsKeepSchedules | internal/opt/alns_engine.go:203-289 | an insertion that never falls back on a shortest plan keeps all plans on schedule |
| TwoOpt.ReverseCopy | internal/opt/alns_engine.go:478-480 | swapping from both ends reverses the segment |
| TwoOpt.TwoOptPlan | internal/opt/alns_engine.go:471-488 | terminates; a permutation with both ends fixed, no longer, on schedule if changed; no feasible interior reversal saves more than 1e-6 |
| TwoOpt.TwoOptImprove | internal/opt/alns_engine.go:469-492 | the same for every plan, in place; all nodes are kept |
| Exchange.AppendTwice | internal/opt/alns_engine.go:558-561 | the two appends, for any spare capacity, yield the splice whose tail is read after the segment is written |
| Exchange.SpliceInPlaceExact | internal/opt/alns_engine.go:560-561 | that is the intended splice exactly when the segment is not longer than the one it replaces or no tail follows |
| Exchange.MoveConservesExactly | internal/opt/alns_engine.go:520-571 | on distinct nodes a swap or segment exchange keeps the nodes of the two plans exactly when it is not crooked |
| Exchange.CrookedMoveLoses | internal/opt/alns_engine.go:556-561 | a crooked move serves its first tail node once less |
| Exchange.StraightMoveConserves | internal/opt/alns_engine.go:550-571 | every other move keeps the nodes, whatever the plans |
| Exchange.MoveKeepsShape | internal/opt/alns_engine.go:550-571 | every move keeps the total number of nodes and their range |
| ExchangeSearch.TryMove | internal/opt/alns_engine.go:520-531 | a candidate is kept exactly when both plans are on schedule and together more than 1e-6 shorter |
| ExchangeSearch.TryAt | internal/opt/alns_engine.go:554-572 | of all moves from two positions a gainful one is kept, or none gains |
| ExchangeSearch.ExchangeBlock | internal/opt/alns_engine.go:515-534 | although candidates come from stale plans, the block leaves the base pair or a single gainful move of it |
| ExchangeSearch.StepEffect | internal/opt/alns_engine.go:525-531 | a kept move shortens the solution by more than 1e-6 and keeps its schedules; it keeps its nodes if it is not crooked, and else loses one |
| ExchangeSearch.PlayEffect | internal/opt/alns_engine.go:508-580 | the same for any number of kept moves, each made on the result of the one before |
| ExchangeSearch.ExchangePass | internal/opt/alns_engine.go:512-535 | a pass continues the sequence of gainful moves from the start and shortens the solution by more than 1e-6, or leaves it unchanged with no gainful move anywhere |
| ExchangeSearch.CrossExchangeImprove | internal/opt/alns_engine.go:508-539 | terminates; reached by gainful swaps one after the other; keeps nodes and feasibility, never longer; no feasible inter-route swap saves more than 1e-6 |
| ExchangeSearch.TwoOptStarImprove | internal/opt/alns_engine.go:542-580 | terminates; reached by gainful exchanges one after the other; keeps feasibility, never longer, no gainful exchange left; keeps the nodes if none of them was crooked, and loses one of them otherwise |
| LostNodes.FewNodesStayStraight | internal/opt/alns_engine.go:542-580 | with fewer than two plans or four served nodes no search makes a crooked move |
| LostNodes.LineSearchLoses | internal/opt/alns_engine.go:542-580 | on a family of problems, one for all greater numbers, whatever the search does it makes a crooked move |
| LostNodes.WrittenSearchKeepsNodesExactly | internal/opt/alns_engine.go:542-580 | the written search keeps the nodes of all solutions with m plans and n served nodes exactly when m < 2 or n < 4 |
| OrOpt.BestRelocation | internal/opt/alns_engine.go:436-457 | a feasible relocation within 1e-6 of the cheapest one of the plan, if there is any |
| OrOpt.OrOptImprove | internal/opt/alns_engine.go:431-466 | with the position clamped: terminates whatever the weights, keeps nodes and schedules, never dearer; no feasible relocation saves more than 2e-6 |
| OrOpt.InnerLoopEndsExactly | internal/opt/alns_engine.go:440-456 | the written inner loop ends exactly for the last node of a plan |
| OrOpt.WrittenSearchReturnsExactly | internal/opt/alns_engine.go:431-466 | the written search returns exactly when no plan has two nodes, and then no relocation is possible |
| Search.SelectOp | internal/opt/alns_engine.go:625-636 | the first operator whose cumulated weight reaches the drawn share, always in range |
| Search.DestroyKeepsSchedules | internal/opt/alns_engine.go:189-201 | without a driving limit, destroying keeps every plan of a feasible solution on schedule |
| Search.IterationKeepsSchedules | internal/opt/alns_engine.go:103-121 | without a driving limit, an iteration from a solution on schedule ends on schedule if no node was appended for want of a place that fits |
| Search.DestroyAndRepair | internal/opt/alns_engine.go:103-116 | up to k nodes are picked by the drawn operator, in exactly its number and kind, taken out, and put back by the drawn rule; nothing that was allocated before is written to |
| Search.LocalSearch | internal/opt/alns_engine.go:117-121 | 2-opt, then cross-exchange, then 2-opt* in place, each with the result its own contract promises, and the cost of the last |
| Search.OneIteration | internal/opt/alns_engine.go:97-121 | the iteration goes through its stages with the drawn operators; the plans and orders that it started from are unchanged, so the incumbent that shares them is too |
| Search.Adapt | internal/opt/alns_engine.go:100-136 | the exact new counters and weights: the two operators used are rewarded by the reward of the outcome, the others keep theirs, none falls below the floor, a snapshot every 50 iterations |
| Search.Advance | internal/opt/alns_engine.go:97-131 | the incumbent changes only for a strictly cheaper solution, which then replaces it; neither its plans nor the storage of its orders is disturbed by work on the current solution; the history grows by the new solution |
| Search.ServedExtend | internal/opt/alns_engine.go:103-121 | the seed's nodes are kept by a run exactly while no crooked move is made, and a lost node never comes back |
| Search.RunStep | internal/opt/alns_engine.go:94-137 | one iteration keeps the state of a run: cheapest incumbent, nodes kept exactly while no crooked move is made, lost nodes never back |
| Search.Solve | internal/opt/alns_engine.go:75-142 | for every run, whatever the weights: the result is a visited solution with its true cost, at most that of every iterate and of the seed; BestCost is FinalCost; consecutive visited solutions are linked by a destroy, repair and the three local searches in that order; all iterates serve the seed's nodes exactly when no crooked move was kept, and always as intended, with fewer than two vehicles or with fewer than four nodes; iterations and selections add up |
| Search.RunConserves | internal/opt/alns_engine.go:94-137 | as intended, or with fewer than two vehicles or four nodes, every solution of every run serves the seed's nodes |
| Search.CheapestByRoutes | internal/opt/alns_engine.go:322-327 | in a run as intended, or with fewer than two vehicles or four nodes, every iterate pays the seed's penalty for unserved nodes, so the incumbent is the cheapest visited by its routes alone |
| LosingRuns.LineIterationLoses | internal/opt/alns_engine.go:94-137 | on those problems, from any seed, every iteration as written that takes out node 0 alone and puts it back greedily loses a node, whatever else happens in it |
| LosingRuns.LineRunLoses | internal/opt/alns_engine.go:75-142 | so from any seed of those problems there is a run as written, linked by iterations, that loses a node |
| LosingRuns.WrittenRunsKeepNodesExactly | internal/opt/alns_engine.go:75-142 | as written, all runs with m vehicles and n nodes serve the seed's nodes throughout exactly when m < 2 or n < 4; a run is any sequence of solutions from a seed on, each made from the one before by an iteration |
| LosingRuns.LineEndBreaksSkills | internal/opt/alns_engine.go:550-571 | the exchange that loses the node also gives vehicle 0 a node whose skill it lacks |
| ServiceRuns.FewKeepService | internal/opt/alns_engine.go:75-142 | with one vehicle or without nodes every solution of every run keeps to capacities and skills |
| ServiceRuns.ApartIterationBreaksRules | internal/opt/alns_engine.go:94-121 | on those problems, from any seed, every iteration that takes out node 0 alone gives it to a vehicle without its skill, whatever the rule |
| ServiceRuns.RunsKeepServiceExactly | internal/opt/alns_engine.go:75-142 | in either mode, all solutions of all runs with m vehicles and n nodes keep to capacities and skills exactly when m < 2 or n = 0 |
| Clustering.FarthestStop | internal/store/postgres.go:895-908 | the first of the stops, other than seeds, that are farthest from the seeds |
| Clustering.SelectSeeds | internal/store/postgres.go:892-910 | min(k, n) distinct seeds from stop 0 on, any two at least as far apart as any stop from its nearest seed |
| Clustering.NearestSeed | internal/store/postgres.go:914-920 | the first of the nearest seeds |
| Clustering.AssignStops | internal/store/postgres.go:911-922 | each stop is in the cluster of its nearest seed, once, and nowhere else |
| Clustering.TwoApproximation | internal/store/postgres.go:892-922 | for any set of at most as many centres, no stop is farther from its own seed than twice that set's radius |
| Clustering.OwnSeedInCluster | internal/store/postgres.go:911-922 | a non-empty cluster contains its own seed, even when stops coincide |
| Clustering.NearestNeighbourTour | internal/store/postgres.go:1103-1118 | a permutation of the cluster from its seed on, always going to the first of the nearest stops that are left |
| Clustering.PlanTours | internal/store/postgres.go:892-1122 | end to end: clusters partition the stops within twice the best radius, and each tour of two or more stops is a permutation of its cluster starting at the seed |
| LegEmission.NearestDepot | internal/store/postgres.go:1132-1142 | the first of the depots nearest to the first stop |
| LegEmission.EmitNext | internal/store/postgres.go:1158-1183 | one round emits a break if one is due, and the drive |
| LegEmission.EmitLegs | internal/store/postgres.go:1030-1079 | the loop emits the specified legs |
| LegEmission.LegsNumbered | internal/store/postgres.go:1126-1194 | numbers are exactly 1..m and only the first leg is in progress |
| LegEmission.DrivesFollowTour | internal/store/postgres.go:1126-1194 | the drives lead from stop to stop in tour order, from and to the depot if there is one |
| LegEmission.LegsOnTime | internal/store/postgres.go:1126-1194 | no leg arrives before the previous departure or before its stop's window opens |
| LegEmission.BreakPlacementBest | internal/store/postgres.go:1157-1184 | before the return leg: fewest breaks of all allowed placements, stretches within the limit unless one over-long leg, no adjacent breaks |
| RouteAdvance.MemoryRoutes.AdvanceRoute | internal/store/memory.go:204-251 | not found, blocked by policy, or the first open leg visited and the next in progress; no other route changes; a copy of the route given out earlier shows the new legs under its old version |
| RouteAdvance.MemoryRoutes.AssignRoute | internal/store/memory.go:100-109 | the assignment; a missing route is created from the zero value with version 1 |
| RouteAdvance.MemoryRoutes.PatchRoute | internal/store/memory.go:111-118 | the patch; every patch counts in the version |
| RouteAdvance.RunsOfPlannedRoute | internal/store/memory.go:204-251 | every run from a planned route: statuses are visited, one in progress, then pending; the n-th effective advance goes from leg n to leg n + 1; at most one per leg; version is 1 plus patches plus effective advances |
| RouteAdvance.EmittedLegsArePlanned | internal/store/postgres.go:1126-1194 | the planner's legs are those of a planned route |
| RouteAdvance.CheckPolicy | internal/store/postgres.go:713-797 | permitted exactly if forced, without policy, or enabled with none of the eight checks objecting; a refusal names the first that objects |
| RouteAdvance.RouteLegTable.AdvanceRoute | internal/store/postgres.go:697-844 | unchanged if no leg is open or the policy refuses, and else the two updates and the reported next leg |
| RouteAdvance.SqlStepIsMemoryStep | internal/store/postgres.go:815-842 | on legs numbered 1..m the row updated by its number is the one reported as next, and the step is that of the in-memory store |
| RouteAdvance.EmittedLegsWellNumbered | internal/store/postgres.go:1126-1194 | the planner's legs are numbered so, with distinct identifiers |
| RouteAdvance.SqlRunsOfEmittedLegs | internal/store/postgres.go:697-844 | every run of calls on the planner's legs: after n effective ones the first n legs are visited and the next in progress; a call is effective exactly if it is permitted and a leg is left, and reports that leg and the next |
| DrivingLimits.LeftBelowLimit | internal/store/postgres.go:766-774 | without force a leg is left only while the driving of all legs before it is below the limit |
| DrivingLimits.CompletesExactly | internal/store/postgres.go:766-774 | some run without force visits all legs exactly when the driving before the last leg is below the limit |
| DrivingLimits.LegsOverAtBreaks | internal/store/postgres.go:1157-1184 | the driving up to and including the drive after a planned break exceeds the limit of the plan |
| DrivingLimits.BrokenRouteStalls | internal/store/postgres.go:1157-1184 | a route planned with a break that has legs after the next drive cannot be completed without force under its own limit |
| Webhooks.NextBackoff | internal/webhooks/worker.go:84-90 | 2 to the power of the attempts, at most 10; the cap of an hour is never reached |
| Webhooks.MemoryQueue.Enqueue | internal/store/memory.go:333-340 | a new delivery is pending, due at once, and listed under its tenant |
| Webhooks.MemoryQueue.FetchDue | internal/store/memory.go:342-355 | due waiting deliveries without repetition, up to the limit, all of them if there is room, whatever the order of tenants |
| Webhooks.MemoryQueue.Mark | internal/store/memory.go:357-374 | one more attempt; delivered, or waiting until the given instant, a minute from now if none is given |
| Webhooks.MemoryQueue.Fail | internal/store/memory.go:376-382 | failed and dead-lettered, without counting an attempt |
| Webhooks.MemoryQueue.RetryDelivery | internal/store/memory.go:451-459 | pending and due at once, for the tenant's own delivery only |
| Webhooks.Deliver | internal/webhooks/worker.go:48-81 | sending one item and recording its outcome are steps of the machine |
| Webhooks.ProcessOnce | internal/webhooks/worker.go:43-82 | a pass of the worker is a run of the machine that fetches once and then sends and records every fetched item, in order |
| Webhooks.InvStep | internal/webhooks/worker.go:43-82 | every interleaved step keeps the accounts and the timing of every delivery |
| Webhooks.PostsAccounted | internal/webhooks/worker.go:74-80 | over all interleavings: POSTs are attempts plus dead-letter entries plus one in flight, and at most MaxAttempts plus manual retries |
| Webhooks.DeadLetteredAfterMax | internal/webhooks/worker.go:74-79 | a delivery never accepted nor retried by hand is dead-lettered, once, exactly when its MaxAttempts-th POST has come back |
| Webhooks.PostsSpaced | internal/webhooks/worker.go:50-80 | consecutive POSTs without a manual retry between them keep the backoff distance |
| Paging.ListScan | internal/store/memory.go:72-91 | a page is the filtered stretch after the cursor, full or reaching the end |
| Paging.ListSlice | internal/store/memory.go:144-158 | a page is the slice after the cursor, with a next cursor exactly if items are left |
| Paging.WalkScan | internal/store/memory.go:526-542 | following the cursors returns each selected item once, in order, and stops |
| Paging.WalkSlice | internal/store/memory.go:144-158 | the same for the slicing list |

## Left out

- IEEE rounding, the haversine formula, and the saturation of durations at 292 years: amounts are reals and distances an arbitrary pseudo-metric.
- Temperature, cooling and `math.Exp`: any worse solution may be accepted or rejected in any iteration.
- The distribution of random draws: only the set of possible draws is modelled.
- Aliasing of the candidates of the local searches: they are values, edited in private copies; the orders of all solutions are slices of heap storage.
- Vehicle identifiers and end depots in plans: plan `i` belongs to vehicle `i`, and the search never reads the end depot.
- The number of routes that PlanRoutes derives from the vehicle pool: it is a parameter of at least one.
- The tables of events and drivers: what the policy checks of one call read from them is a parameter, at one instant.
- SQL text, transactions, JSON and the drawing of identifiers: tables are sequences ordered by number, identifiers are fresh.
- Payloads, signatures, response codes, latencies, counters and the request timeout of webhook deliveries; the SQL delivery queue and its dead-letter operations.
- The demonstration route with two fixed legs that the in-memory planner stores: it is one of the planned routes covered.
- HTTP handlers, event streams, authentication, brokers, geofences, hours-of-service records, optimiser configuration and plan metrics: plumbing or easy members.
