# CoreLink models

Models of the parts of CoreLink where correctness depends on several pieces of code at once, with
machine-checked proofs about them, in Dafny 4.11. `dafny verify dfyconfig.toml` checks everything.

## What is modelled

**The topology brain** (`internal/controller/topology`), bottom up:

- `Paths`, `Dijkstra`, `KShortest`, `KLists`: weighted digraphs, the masked search with lazy deletion,
  Yen's K shortest simple paths, and what any two valid lists of a pair have in common.
- `SplitGraph`: the node-splitting graph of a pruned edge list, and the compression of its paths to hops.
- `Sorting`, `Nearest`, `Prune`: the bounded-degree overlay, as a declarative specification and as the program.
- `Assign`, `Uplinks`, `Optimizer`: roles, neighbours, leaf uplinks, probe sets, baseline routes, the full recompute.
- `Incremental`, `IncrementalLimits`, `Ties`: the cache of the incremental optimiser, and where it stops agreeing or
  stops being the full result; `Mesh` is the small overlay on which both are shown.
- `Dag`, `Fib`: first-hop tables, the forwarding graph, cycle detection and cycle pruning.
- `Service`: the damped, versioned shell with its store, over any sequence of calls.

**The node**: `Probe` (the multi-hop path-probe protocol over a lossy network), `Frame` (stream framing and the
probe payload), `Checksum` (the SERVFAIL answer and its header checksum), `Selector` (relay choice with hysteresis).

**The controller's concurrent parts**: `Enroll` (a compensated saga racing itself and key revocation),
`Notify` (coalescing workers with a close protocol), `Ipam` (an index in memory beside the lease table).

## How it is modelled

- Code that changes state is a method, or a class with methods, that is proved equal to a function of the old
  state; the properties are lemmas about those functions and about runs of them. Goroutines are state machines:
  each section under a lock, each channel operation and each table statement is one atomic step, and a run is any
  sequence of steps.
- Node and ingress identifiers of the topology are natural numbers in the order of the strings. A vertex is a
  datatype, which the string encoding matches because identifiers hold neither `\x1f` nor `\x00`.
- The order in which Go walks a map is an arbitrary choice. `container/heap` is a multiset whose least entry by
  (distance, vertex) is popped.
- Distances are natural numbers. `Paths.SampledWeightsAreSafe` shows when no simple path reaches the sentinel
  `1<<63`, `Dijkstra.TentativeFits` that sums then stay within 64 bits, and `Incremental.SampledInputOk` that any
  input of sampled weights on at most 2^27 vertices qualifies.
- The dirty ratio is a real number. Clocks, snapshots, probe results and the outcome of a save, a store statement
  or a send are inputs of a step.

## Where the code and its documentation disagree

- `incremental.go:16-18` promises a result equal field by field to a full recompute. What holds is
  `Incremental.Agrees`: equal roles, neighbours and probe sets, routes for the same pairs, and a valid list of K
  shortest routes, with the same weights, for each (`Incremental.StepAgrees`, `Incremental.AgreementFixesRoutes`).
  No result but the recomputed one agrees if and only if no listed path ties with another path of its pair
  (`Incremental.OnlyFullAgrees`). Every step from an agreeing cache into an input gives the recomputed result field by
  field under that same condition on the input (`Incremental.StepsAreFull`); one that falls back to a full recompute
  gives it anyway. `Ties.TiesMatter` is an input and an event where a tie makes the patched step keep other routes.
  And since an unmeasured edge weighs 1000000 (`prune.go:58`), an `EdgeDown` on a larger measurement makes the edge
  cheaper without being noticed: `IncrementalLimits.DropThreshold`.
- `service.go:267-271` discards the incremental baseline when a save fails so that no event is applied twice. The
  full branch does not: `Service.StaleExactly` says exactly when events older than a snapshot are folded into it,
  `Service.StaleReplay` is a run.
- `dag.go:11` removes cycles from the union over all prefixes, although packets for different prefixes never
  follow each other's next-hops. Routes come in both directions, so as soon as there is any route the tables lose
  next-hops: `Fib.BaselinesLoop` with `Fib.ComputeFIB`.
- `ipam.go:97-111` clears the index by parsed address and the table by text: `Ipam.ReleaseMatches`,
  `Ipam.ForgottenBlocks`.
- `dataplane.go:1096-1160`: hand-overs to a relay are not counted, so two relays can hand a probe back and forth
  for ever: `Probe.RelaysUnbounded`.
- `notify.go:145-151` lets consumers leave through their closed channel; a subscription made after `Close` gets a
  channel nobody ever closes, and it is the only one: `Notify.CloseReleases`, `Notify.LateSubscriber`.
- `router.go:362-363` of `proberouter` promises that a shared route is delivered even where routes loop. It is sent with
  index 0 to the first hop of its delivery route, and that node takes index 0 for its next hop and sends it to itself:
  `Probe.SyncArrives`, `Probe.SyncNeedsItself`.
- `dataplane.go:983-993` has every node answer a request. A request whose index is beyond its route has no way back,
  and building one runs an index out of range; decoding lets it through: `Probe.PanicsExactly`,
  `Probe.StraysOnTheWire`. No frame of a probe is one: `Probe.AtMostOnce`.

## Model

| member | source | states |
|---|---|---|
| Paths.SampledWeightsAreSafe | internal/controller/topoadapter/adapter.go:200-203 | with weights from quality reports and at most 2^27 vertices no simple path reaches the sentinel 1<<63 |
| Dijkstra.ShortestIsShortest | internal/controller/topology/kpaths.go:104-158 | under any masks, zero weights included, the search returns a simple path of minimum weight with its weight, or nothing exactly when the destination is unreachable in the masked graph |
| Dijkstra.TentativeFits | internal/controller/topology/kpaths.go:134-141 | no tentative distance overflows 64 bits |
| Dijkstra.RunFinishes | internal/controller/topology/kpaths.go:116-142 | the loop ends with the destination settled or the queue empty, and its invariant intact |
| Dijkstra.FinishedIsLeast | internal/controller/topology/kpaths.go:104-158 | when the loop ends the destination is settled, if any walk reaches it, at no more than that walk's weight |
| Dijkstra.ShortestPath | internal/controller/topology/kpaths.go:104-158 | the loop over queue and maps computes that result |
| Dijkstra.RelaxAll | internal/controller/topology/kpaths.go:127-141 | the inner loop relaxes the edges out of the settled vertex, skipping masked ones |
| Dijkstra.Backtrack | internal/controller/topology/kpaths.go:144-158 | following the predecessors and reversing gives the path of the search |
| KShortest.KPathsCorrect | internal/controller/topology/kpaths.go:232-318 | distinct simple paths in nondecreasing weight, at most K, and a path left out means the list is full of paths no heavier than it |
| KLists.ListLength | internal/controller/topology/kpaths.go:224-318 | a list of K shortest paths holds exactly min(K, number of simple paths) |
| KLists.SimplePathsAll | internal/controller/topology/kpaths.go:224-318 | the set counted there is finite and holds exactly the simple paths |
| KLists.ListsAgree | internal/controller/topology/kpaths.go:224-318 | any two lists of a pair have the same length and weights |
| KLists.OnlyList | internal/controller/topology/kpaths.go:224-318 | a pair has only one such list if and only if no listed path weighs as much as another of its simple paths |
| KShortest.KShortestPaths | internal/controller/topology/kpaths.go:232-318 | the program with its result, chosen and candidate lists computes that list |
| KShortest.RemovedEdges | internal/controller/topology/kpaths.go:261-270 | the edges removed at a spur vertex are those by which chosen paths leave the shared root; the index i + 1 is in range |
| KShortest.TrySpurs | internal/controller/topology/kpaths.go:256-295 | one spur search for every vertex of the last path but the destination, each new candidate filed once |
| KShortest.PickBest | internal/controller/topology/kpaths.go:193-212 | the pick comes before every other candidate, by weight and then by sequence |
| KShortest.BestIsFirst | internal/controller/topology/kpaths.go:301-308 | so does the running minimum among the candidates looked at so far |
| KShortest.PrefixWeight | internal/controller/topology/kpaths.go:177-184 | adds the weights of the edges of the root |
| KShortest.CandidatesSuffice | internal/controller/topology/kpaths.go:253-315 | every path not yet chosen is matched by a candidate that weighs no more |
| SplitGraph.SplitGraphIsSplit | internal/controller/topology/kpaths.go:29-65 | the graph has no parallel edges and exactly the weighted cross edges and the weightless inner edges |
| SplitGraph.BuildSplitGraph | internal/controller/topology/kpaths.go:29-65 | the program builds that graph, lists sorted, in any order of the vertices |
| SplitGraph.CompressLossless | internal/controller/topology/kpaths.go:367-377 | the path is rebuilt from its hops |
| SplitGraph.CompressExpand | internal/controller/topology/kpaths.go:367-377 | hops are recovered from the rebuilt path |
| SplitGraph.CompressInjective | internal/controller/topology/kpaths.go:367-377 | distinct paths have distinct hop lists |
| SplitGraph.HopLinkIsCross | internal/controller/topology/incremental.go:294-311 | every edge rebuilt from hops is a cross edge of the path |
| SplitGraph.CrossIsHopLink | internal/controller/topology/incremental.go:294-311 | every cross edge of the path is rebuilt from its hops |
| SplitGraph.PathsAreRealisable | internal/controller/topology/kpaths.go:332-377 | compressed paths step along pruned edges, end at the destination, repeat no node and never return to the source |
| SplitGraph.CompressPath | internal/controller/topology/kpaths.go:367-377 | the loop computes the compression |
| Sorting.SortedUnique | internal/controller/topology/prune.go:166-174 | by a weak order there is one sorted list of given elements, so sorting hides the order they came in |
| Nearest.PicksRank | internal/controller/topology/prune.go:110-143 | the picks of a node are those fewer than d others precede |
| Prune.PrunedUnique | internal/controller/topology/prune.go:51-177 | the specification, a pair kept if and only if one end ranks the other in its top d, each direction with its k least edges, strictly sorted, leaves no choice |
| Prune.PrunedMeans | internal/controller/topology/prune.go:51-177 | by measurements alone: an edge is kept if and only if one end is among the d nearest of the other, it weighs what was measured or 1000000, and fewer than k ingresses of its target are better |
| Prune.TopIngressesRank | internal/controller/topology/prune.go:60-85 | a direction keeps exactly the edges fewer than k others precede by (weight, ingress) |
| Prune.BestWIs | internal/controller/topology/prune.go:87-108 | the distance of a neighbour is the least of its measured weights, the default if it has ingresses and none was measured, and none without an ingress |
| Prune.LeastMeasuredIs | internal/controller/topology/assign.go:29-41 | the scan over the ingresses finds the least measured weight, none if and only if none was measured |
| Prune.PruneEdges | internal/controller/topology/prune.go:51-177 | the program meets the specification in any map order |
| Prune.PrunedSymmetric | internal/controller/topology/prune.go:145-163 | when every transit has a reachable ingress, a is joined to b if and only if b is joined to a |
| Prune.NearestKept | internal/controller/topology/prune.go:110-163 | a transit is joined, both ways, to each of its d nearest |
| Prune.FewPairs | internal/controller/topology/prune.go:110-163 | at most n times d physical pairs remain |
| Assign.ClassifyNodes | internal/controller/topology/eligibility.go:40-67 | transits and leaves, each sorted, are exactly the eligible and the other nodes |
| Assign.BuildIngressIndex | internal/controller/topology/assign.go:47-65 | every node is mapped to its reachable ingresses, sorted, without repeats |
| Assign.IndexIs | internal/controller/topology/assign.go:47-65 | the index lists exactly the reachable ingresses, whatever their confidence |
| Assign.NetOk | internal/controller/topology/assign.go:47-65 | with unique node identifiers the pruning input is well formed and every transit has a reachable ingress |
| Assign.NeighborsOffer | internal/controller/topology/assign.go:78-105 | a neighbour list offers exactly the ingresses of the pruned edges |
| Assign.BuildNeighbors | internal/controller/topology/assign.go:78-105 | the grouping loops compute those lists in any map order |
| Uplinks.UplinksAreNearest | internal/controller/topology/assign.go:107-173 | a leaf's uplinks are the transits it measured that fewer than limit others precede by (least measured weight, identifier) |
| Uplinks.UplinkIngresses | internal/controller/topology/assign.go:107-173 | an uplink carries exactly the ingresses the leaf measured, in order |
| Uplinks.AssignLeafUplinks | internal/controller/topology/assign.go:122-173 | the program computes them, and leaves out a leaf with none |
| Uplinks.SampledAre | internal/controller/topology/assign.go:214-255 | in full mode every other node with an ingress is probed, in sampling mode those of them that were measured and that fewer than limit others precede by (least measured weight, identifier) |
| Uplinks.TargetsAre | internal/controller/topology/assign.go:194-290 | the targets of a node are those it samples and those with an ingress that sample it, each with all its reachable ingresses in order |
| Uplinks.ProbingIsMutual | internal/controller/topology/assign.go:194-285 | only other nodes with an ingress are probed, and whoever is probed probes back if it can |
| Uplinks.Close | internal/controller/topology/assign.go:260-269 | the symmetric closure, written into the sets being walked, does not depend on the order of the walk |
| Uplinks.BuildProbeSets | internal/controller/topology/assign.go:194-285 | the program computes the probe sets that Uplinks.TargetsAre describes |
| Optimizer.BaselineValid | internal/controller/topology/kpaths.go:342-364 | every pair in the baseline has a non-empty list of its K shortest paths |
| Optimizer.BaselineExactly | internal/controller/topology/kpaths.go:342-364 | a pair is in the baseline if and only if a simple path joins its transits, with as many routes as there are paths, up to K |
| Optimizer.BaselineRealisable | internal/controller/topology/kpaths.go:342-377 | every baseline route can be walked hop by hop |
| Optimizer.HopsAreNeighbors | internal/controller/topology/assign.go:78-105 | each hop of a route is offered by the neighbour list of the node before it |
| Optimizer.BaselineSymmetric | internal/controller/topology/kpaths.go:342-364 | (A, B) has a baseline route if and only if (B, A) has one |
| Optimizer.BaselineRoutes | internal/controller/topology/kpaths.go:342-364 | the loops over all pairs compute the baseline |
| Optimizer.Optimize | internal/controller/topology/optimizer.go:74-129 | the program computes roles, neighbours, baseline and probe sets |
| Optimizer.RolesAre | internal/controller/topology/eligibility.go:40-67 | a node is a transit if and only if one of its ingresses is reachable with a confidence of at least 60, otherwise a leaf |
| Optimizer.TransitNeighbors | internal/controller/topology/optimizer.go:81-98 | a transit's neighbours offer exactly the ingresses of the pruned edges |
| Optimizer.LeafNeighbors | internal/controller/topology/optimizer.go:81-98 | a leaf's neighbours are its nearest measured transits, two unless configured otherwise |
| Optimizer.ProbeTargets | internal/controller/topology/optimizer.go:74-129 | what each node of an input probes, by the configured mode and limit |
| Incremental.WeightsRise | internal/controller/topology/incremental.go:318-353 | without a recorded or hidden decrease no weight falls and every weight that rises is recorded |
| Incremental.BatchUpdates | internal/controller/topology/incremental.go:86-96 | the last event about an edge deletes its measurement when it is down and sets it when it is degraded or recovered; an edge without an event keeps what it had |
| Incremental.StepAgrees | internal/controller/topology/incremental.go:85-143 | a batch keeps the cache in agreement with a full recompute unless it drops a measurement above the default |
| Incremental.RunAgrees | internal/controller/topology/incremental.go:85-143 | so does every run of batches, from any input, on nodes with unique identifiers and at most 2^27 vertices whose measured weights are at most the default |
| Incremental.SampledInputOk | internal/controller/topoadapter/adapter.go:200-203 | unique identifiers, sampled weights and at most 2^27 transit and ingress vertices are enough for an input: no sum of weights reaches the sentinel |
| Incremental.AgreementFixesRoutes | internal/controller/topology/incremental.go:16-18 | agreement fixes the number and weights of every pair's routes, and the routes of an untied pair |
| Incremental.OnlyFullAgrees | internal/controller/topology/incremental.go:16-18 | only the full recompute agrees, field by field, if and only if no pair has a listed path that weighs as much as another of its simple paths |
| Incremental.UntiedStepIsFull | internal/controller/topology/incremental.go:16-18 | on such an input a step gives exactly the full recompute |
| Incremental.StepsAreFull | internal/controller/topology/incremental.go:16-18 | every step from an agreeing cache into an input, dropping no measurement above the default, gives exactly the full recompute if and only if no pair of that input is tied |
| Incremental.CleanPairStaysValid | internal/controller/topology/incremental.go:254-311 | a pair none of whose routes meets a changed edge keeps a valid list |
| Incremental.ChangedEdgeSet | internal/controller/topology/incremental.go:332-353 | the program computes the changed edges and the decrease flag |
| Incremental.FindDirty | internal/controller/topology/incremental.go:254-277 | the program computes the dirty pairs: all of them after a decrease, otherwise those whose routes meet a changed edge |
| Incremental.NextResult | internal/controller/topology/incremental.go:85-143 | structure check, threshold, patch or full recompute: the program computes the step |
| Incremental.IncrementalOptimizer.constructor | internal/controller/topology/incremental.go:67-75 | a new cache agrees with the full recompute of its input |
| Incremental.IncrementalOptimizer.ApplyEdgeEvents | internal/controller/topology/incremental.go:85-143 | the object applies the batch to its quality matrix, event by event about each edge, takes the step and, unless a measurement above the default is dropped, keeps its agreement |
| IncrementalLimits.DropThreshold | internal/controller/topology/incremental.go:332-353 | dropping an edge measured at w keeps the cache of every fully recomputed input in agreement if and only if w is at most 1000000 |
| IncrementalLimits.DropBreaks | internal/controller/topology/prune.go:57-60 | for every larger w the cache a full recompute leaves is patched into a result that agrees with no full recompute |
| IncrementalLimits.ModestDrop | internal/controller/topology/incremental.go:332-353 | up to the default no agreeing cache is harmed, recomputed or patched |
| IncrementalLimits.ByFirstIngress | internal/controller/topology/kpaths.go:77-83 | at every such w, a tie included, the search that fills the cache goes by the first ingress |
| Ties.TiesMatter | internal/controller/topology/incremental.go:16-18 | on an input of three transits, a raised link that no cached route of a pair uses is patched into a result that agrees and yet has other routes than the full recompute |
| Ties.SpurAt0Tied | internal/controller/topology/kpaths.go:77-83 | of two equally short paths the search keeps the one whose last vertex but one was settled first |
| Dag.FindOneCycle | internal/controller/topology/dag.go:94-119 | nil if and only if the graph is acyclic, otherwise a walk of real edges that closes with its last step and meets no node twice before |
| Dag.ValidateDAG | internal/controller/topology/dag.go:44-71 | an error if and only if there is a cycle, and the error then names one |
| Dag.Search.DfsFindCycle | internal/controller/topology/dag.go:122-146 | a visit that finds nothing leaves the stack as it was and its node finished, all successors of finished nodes finished before them |
| Dag.Search.DfsVisit | internal/controller/topology/dag.go:74-90 | the visit without predecessors finds a back edge only on a cycle |
| Dag.FinishedIsAcyclic | internal/controller/topology/dag.go:74-90 | a graph whose nodes all finished has no closed walk |
| Dag.Forwarding.PruneGraphCycles | internal/controller/topology/dag.go:175-195 | ends; the graph left is acyclic; graph and table lose exactly the same edges, cut one after the other, each while it still closed a cycle of what was left, and none if there was no cycle |
| Dag.Forwarding.RemoveNextHop | internal/controller/topology/dag.go:199-215 | drops the peer's next-hops, then empty entries, then a source without entries |
| Dag.CutSends | internal/controller/topology/dag.go:175-215 | pruning removes the next-hops of the cut edges, for every prefix, and no other |
| Dag.CutInStep | internal/controller/topology/dag.go:175-215 | graph and table stay in step |
| Dag.PacketsStop | internal/controller/topology/dag.go:175-195 | after pruning a packet of any prefix, whatever next-hops are picked, meets no node twice and stops within the number of nodes |
| Dag.MutualNextHopsConflict | internal/controller/topology/dag.go:175-195 | of two nodes that use each other as next-hop, one loses the other |
| Dag.BuildForwardingGraph | internal/controller/topology/dag.go:152-168 | the graph has an edge exactly where the table has a next-hop, and no successor twice |
| Fib.BuildPerSourceFIB | internal/controller/topology/fib.go:46-129 | for every source and prefix exactly the first hops of its routes there, each once, in order, weight 100, one entry a prefix, in any map order |
| Fib.WantsMeans | internal/controller/topology/fib.go:48-120 | for a prefix a node wants exactly the first hops of its routes to the nodes with that address, all with the same weight |
| Fib.TableUnique | internal/controller/topology/fib.go:131-146 | sorted by prefix there is only one such table |
| Fib.ComputeFIB | internal/controller/topology/fib.go:28-41 | the table sends to exactly the first hops of baseline routes, for every prefix, but for a list of steps given up one after the other, each while it still closed a loop, and for none if and only if there is no loop; no packet loops |
| Fib.NeverEmptied | internal/controller/topology/fib.go:28-41 | whatever loops there are, a table of the optimiser's routes keeps some next-hop |
| Fib.NextHopsAreNeighbors | internal/controller/topology/fib.go:46-129 | a transit's next-hops for the optimiser's routes are its own neighbours by ingresses chosen for them |
| Fib.BaselinesLoop | internal/controller/topology/dag.go:148-195 | with an address for every transit, a baseline with any route at all has first hops that form a loop |
| Service.LoadedRun | internal/controller/topology/service.go:172-348 | once loaded, over any calls and save failures: saved versions strictly increase, lie beyond the stored ones, and the latest stored result is the one served |
| Service.ActVersions | internal/controller/topology/service.go:221-321 | one call saves nothing or a version beyond all stored ones |
| Service.RunTimed | internal/controller/topology/service.go:142-147 | successful applies are at least MinInterval apart |
| Service.CallSaves | internal/controller/topology/service.go:202-321 | in every reachable state: within the interval a tick or an event only queues; past it the next result, of the events or of the snapshot under the configured caps, is saved, served and counted if and only if some part of it differs from the last one and the store takes it |
| Service.ActEvents | internal/controller/topology/service.go:236-321 | an event leaves the queue only into the baseline, or into a snapshot taken after it arrived |
| Service.RunEvents | internal/controller/topology/service.go:236-321 | in every reachable state the baseline is a snapshot with the events after some point folded in |
| Service.StaleExactly | internal/controller/topology/service.go:297-321 | exactly when events older than the snapshot stay queued to be folded into it |
| Service.StaleReplay | internal/controller/topology/service.go:261-271 | a run that deletes a measurement newer than the event that deletes it |
| Service.ServedAgrees | internal/controller/topology/service.go:272-321 | after any run whose snapshots and events stay within the default weight, what is served agrees with a full recompute of the baseline's input unless the last result could not be saved |
| Service.RecomputeIsLatest | internal/controller/topology/service.go:153-169 | an explicit version keeps the served result the latest stored one if and only if no stored version lies beyond it |
| Service.UnloadedStart | internal/controller/topology/service.go:330-348 | without a load the counter starts over and a later load finds the old result |
| Service.ActIsCall | internal/controller/topology/service.go:153-348 | the steps of a run are the calls of the object: state, stored row, saved result and its time, a load included |
| Service.TopoService.FlushLocked | internal/controller/topology/service.go:272-321 | the program computes the flush: fold or snapshot, compare, save, drain or keep |
| Service.TopoService.ApplyResultLocked | internal/controller/topology/service.go:172-200 | a failed save changes nothing, a successful one everything |
| Service.TopoService.Tick | internal/controller/topology/service.go:221-230 | a tick within the interval is remembered, any other flushes |
| Service.TopoService.OnEvent | internal/controller/topology/service.go:236-245 | an event is queued and, outside the interval, flushed with the queue |
| Service.TopoService.Recompute | internal/controller/topology/service.go:153-169 | an explicit recompute starts a new baseline and applies it |
| Service.TopoService.Load | internal/controller/topology/service.go:330-348 | the latest stored result is served, the counter is at least its version |
| Probe.AtMostOnce | internal/nodecore/dataplane/dataplane.go:994-1093 | whatever is dropped, relayed or reordered: a delivered reply carries a hop in 1..n, came back over exactly the reversed prefix and then the source, and no hop answers twice; no index is out of range |
| Probe.ExactlyOnce | internal/nodecore/dataplane/dataplane.go:994-1093 | without loss, once nothing is on its way, every hop has answered exactly once |
| Probe.RunsEnd | internal/nodecore/dataplane/dataplane.go:1012-1160 | a run is no longer than the route allows for plus one for each hand-over to a relay |
| Probe.ProbeBounded | internal/nodecore/dataplane/dataplane.go:1034-1093 | without hand-overs at most n(n + 3) / 2 arrivals when replies come back over the route, 2n when not |
| Probe.SyncArrives | internal/nodecore/dataplane/dataplane.go:1019-1031 | when every send arrives a shared route visits its delivery route in order and is handed to the last node, after the first node has sent it to itself once |
| Probe.SyncNeedsItself | internal/nodecore/proberouter/router.go:378-390 | if the first node cannot send to itself the shared route is lost there |
| Probe.RelaysUnbounded | internal/nodecore/dataplane/dataplane.go:1134-1147 | with hand-overs there are runs of every length |
| Probe.ArriveInv | internal/nodecore/dataplane/dataplane.go:994-1093 | every arrival keeps: at most one request, at most one reply a hop reached, each where its route says |
| Probe.HandleReply | internal/nodecore/dataplane/dataplane.go:1034-1049 | a reply goes on to the next node of its back route, and is delivered at the last |
| Probe.HandleGenuineRequest | internal/nodecore/dataplane/dataplane.go:1051-1093 | a request leads to the reply of its hop and to the request for the next hop, if there is one |
| Probe.DataPlane.HandleProbeFrame | internal/nodecore/dataplane/dataplane.go:994-1093 | the handler sends and delivers what the step says, and panics exactly on a straying request, before it sends anything |
| Probe.PanicsExactly | internal/nodecore/dataplane/dataplane.go:1051-1073 | an index runs out of range if and only if a request to be answered along its route has an index of 255 or beyond that route |
| Probe.StraysOnTheWire | internal/nodecore/dataplane/dataplane.go:994-999 | payloads decode to such requests: one with no route strays unless its index is 0 |
| Probe.DataPlane.BuildReplyRoute | internal/nodecore/dataplane/dataplane.go:1067-1073 | the loop builds the reversed prefix followed by the source |
| Probe.DataPlane.DeliverProbeReply | internal/nodecore/dataplane/dataplane.go:1184-1196 | a reply reaches a waiting probe with room in its buffer, and is dropped otherwise |
| Frame.StreamRoundTrip | internal/transport/frame.go:102-189 | reading the concatenation of any list of frames with IPv4 or genuine IPv6 addresses, each within 65535 bytes, returns that list |
| Frame.CutStream | internal/transport/frame.go:163-189 | a stream cut inside a frame yields the frames before it and then end of stream |
| Frame.ReadWritten | internal/transport/frame.go:102-189 | reading a written frame leaves the rest of the stream untouched |
| Frame.FrameFields | internal/transport/frame.go:102-137 | the bytes of a written frame, field by field |
| Frame.BEDigit | internal/transport/frame.go:102-137 | numbers are written most significant byte first |
| Frame.ReadBackSame | internal/transport/frame.go:77-89 | the address comes back unchanged if and only if it is IPv4 or genuine IPv6 |
| Frame.WrittenRead | internal/transport/frame.go:250-277 | a frame read with no flag but the IPv6 one is written as the bytes it was read from |
| Frame.WriteStreamFrame | internal/transport/frame.go:102-137 | writes the frame into the buffer, or fails exactly when it is too long |
| Frame.ProbeRoundTrip | internal/transport/frame.go:407-501 | a probe payload survives encoding and decoding if and only if it has at most 255 hops and its shared route, sent only when flagged, takes a whole number of milliseconds below 65536 |
| Frame.DecodeEncoded | internal/transport/frame.go:407-501 | what exactly comes back when the hops fit |
| Frame.TooManyHops | internal/transport/frame.go:437-438 | a longer route comes back as its first hops, as many as its length modulo 256 |
| Frame.ProbeFrameRoundTrip | internal/transport/frame.go:506-527 | a probe frame read off a stream shows its flag and target and decodes to the probe |
| Frame.EncodeProbePayload | internal/transport/frame.go:407-456 | writes the payload into the buffer |
| Checksum.HeaderChecks | internal/nodecore/dataplane/dataplane.go:968-979 | the finished header folds to all ones for every header length |
| Checksum.FoldIs | internal/nodecore/dataplane/dataplane.go:975-977 | folding keeps the sum modulo 0xFFFF and makes no positive sum zero |
| Checksum.AnswerGoesBack | internal/nodecore/dataplane/dataplane.go:956-961 | addresses and ports are exchanged, and exchanging them again restores them |
| Checksum.AnswerIs | internal/nodecore/dataplane/dataplane.go:954-970 | the response bit and the code server failure are set, the UDP checksum cleared, the time to live 64, and every other byte is the query's |
| Checksum.HeaderChecksum | internal/nodecore/dataplane/dataplane.go:971-977 | both loops: the sum fits 32 bits and the folding ends |
| Checksum.BuildServfail | internal/nodecore/dataplane/dataplane.go:940-981 | an answer exactly for UDP packets over IPv4 with room for a DNS header, and which bytes it has |
| Selector.RunInv | internal/nodecore/multirelay/selector.go:163-281 | the current relay is a candidate; every switch has its reason since the one before: enough rounds in a row that found the relay best by the margin over a reachable current one, or enough degrade reports or failed probes in a row; rounds are at least the interval apart |
| Selector.DecideJustified | internal/nodecore/multirelay/selector.go:231-271 | a decision to switch has its reason in the history |
| Selector.DecideCounts | internal/nodecore/multirelay/selector.go:231-281 | after a decision the counters say what the history says |
| Selector.DecidesExactly | internal/nodecore/multirelay/selector.go:231-271 | a decision switches if and only if there is a best relay and the history asks for it: enough degrade reports, enough failed probes, or enough rounds that found the same relay much better |
| Selector.SwitchesExactly | internal/nodecore/multirelay/selector.go:189-272 | in every reachable state a tick runs a round if and only if every round before is the interval back, and the round switches exactly then, to the best relay, and is logged with its reason |
| Selector.BestIsLeast | internal/nodecore/multirelay/selector.go:213-229 | the best is the first reachable other candidate with the least round trip if and only if that one has a name; an unnamed one is taken for none, and the best of those after it is returned |
| Selector.UnnamedHides | internal/nodecore/multirelay/selector.go:213-229 | an unnamed fastest candidate hides a slower one before it for an even slower one after it |
| Selector.InitialRelay | internal/nodecore/multirelay/selector.go:140-152 | the initial relay is the first configured of the least priority |
| Selector.RelaySelector.DoTick | internal/nodecore/multirelay/selector.go:189-272 | the round, with reports arriving between its locked sections |
| Selector.RelaySelector.DecideLocked | internal/nodecore/multirelay/selector.go:231-271 | the second locked section computes the decision, which Selector.DecidesExactly describes |
| Selector.RelaySelector.FindBest | internal/nodecore/multirelay/selector.go:213-229 | the loop finds the best candidate |
| Enroll.OneNodePerKey | internal/controller/enroll/service.go:62-177 | however calls and revocations interleave: a one-time key makes at most one node, and finished calls have different node identifiers, addresses and certificates even if they drew the same identifier |
| Enroll.QuietMatches | internal/controller/enroll/service.go:92-177 | once no call is in flight, leases, certificates and nodes match one to one but for rows whose compensation failed |
| Enroll.QuietMatchesInFull | internal/controller/enroll/service.go:92-177 | with compensation succeeding they match in full |
| Enroll.NoStrays | internal/controller/enroll/service.go:100-176 | with compensation succeeding no row is left behind and a key is consumed for nothing only if it was revoked |
| Enroll.RevokedForGood | internal/controller/store/extra_repo.go:43-79 | no compensation revives a revoked key: whoever finishes after the revocation had got past the key's checks before it |
| Enroll.RevokeRefuses | internal/controller/store/extra_repo.go:47-51 | revoking marks exactly that key, and no call on its own enrols with it from then on |
| Enroll.ActInv | internal/controller/enroll/service.go:62-177 | every step of every call keeps the ownership of keys, leases, certificates and nodes |
| Enroll.EnrollService.Enroll | internal/controller/enroll/service.go:62-177 | one call on its own takes these steps in this order, compensation included, and ends as Enroll.EnrolsAlone says |
| Enroll.EnrolsAlone | internal/controller/enroll/service.go:62-177 | a call on its own enrols if and only if its key exists and is neither revoked, used up nor expired, no step fails, and address and serial number are unused; it leaves one row in each table, and a failed one whose compensation succeeds leaves every table as it was |
| Enroll.EnrollService.ConsumeOneTimeKey | internal/controller/store/extra_repo.go:59-67 | claims the key if it is neither revoked nor consumed |
| Enroll.EnrollService.CompensateKey | internal/controller/store/extra_repo.go:75-79 | resets a one-time key that was not revoked meanwhile |
| Enroll.EnrollService.NextNodeID | internal/controller/store/node_repo.go:61-72 | one more than the greatest identifier, at least 100 |
| Enroll.EnrollService.CreateNode | internal/controller/store/node_repo.go:14-16 | fails when the identifier or the address is taken |
| Notify.Orderly | internal/controller/configsvc/notify.go:69-226 | under every interleaving: nothing is sent on or closed after closing, no worker is added after closing, one live worker a node, counted by the wait group, and strictly increasing generations on every subscription |
| Notify.RecomputeForcesBump | internal/controller/configsvc/notify.go:124-136 | a finished recompute has its token waiting, with a worker to take it unless closed, or a bump was started after it |
| Notify.RecomputeCounts | internal/controller/configsvc/notify.go:124-136 | that holds for every recompute begun before closing, whatever happens between its steps |
| Notify.RunClosed | internal/controller/configsvc/notify.go:145-188 | once closed the wait group only falls and no channel is sent on, opened or closed |
| Notify.ClosedWorkersExit | internal/controller/configsvc/notify.go:193-226 | once closed every live worker has a step to take and each brings it closer to its exit |
| Notify.LateSubscriber | internal/controller/configsvc/notify.go:69-79 | a subscription made after closing is never served and never closed |
| Notify.CloseReleases | internal/controller/configsvc/notify.go:138-164 | once closed, a channel is open if and only if it was subscribed after the closing step |
| Notify.DeliverGens | internal/controller/configsvc/notify.go:207-223 | a delivery is beyond all that was sent to the node before |
| Notify.DeliveryReaches | internal/controller/configsvc/notify.go:193-226 | in every reachable state a delivery before closing gives each open subscription of the node with fewer than four signals waiting the new generation, one above the last, and touches no other |
| Notify.UnsubscribeCloses | internal/controller/configsvc/notify.go:92-107 | unsubscribing before closing closes that channel, takes it off the table, and touches no other |
| Notify.Center.Close | internal/controller/configsvc/notify.go:145-164 | closes every registered channel, each while still open |
| Notify.Center.Subscribe | internal/controller/configsvc/notify.go:69-88 | registers a channel and ensures the worker, in two steps |
| Notify.Center.Unsubscribe | internal/controller/configsvc/notify.go:92-107 | closes a registered channel and forgets it |
| Notify.Center.EnsureWorker | internal/controller/configsvc/notify.go:170-188 | starts a worker unless closed or there is one |
| Notify.Center.RecomputeAndNotify | internal/controller/configsvc/notify.go:124-136 | ensures a worker and leaves a token for each node in turn |
| Notify.Center.DeliverFrom | internal/controller/configsvc/notify.go:206-223 | gives the generation to every subscription of the node that has room, as Notify.DeliveryReaches says, or exits when closed |
| Ipam.AllocationIs | internal/controller/ipam/ipam.go:56-94 | the lowest address that is not leased, never network, gateway or broadcast; exhausted if and only if all usable ones are leased; the index stays the lease table |
| Ipam.NetworkFits | internal/controller/ipam/ipam.go:56-72 | a masked network ends within 32 bits, so no address of it wraps around |
| Ipam.RunMatches | internal/controller/ipam/ipam.go:26-111 | over any run with texts that Allocate returned the index is the lease table, and a restart changes nothing |
| Ipam.ReleaseMatches | internal/controller/ipam/ipam.go:97-111 | a release keeps index and table matched if and only if its text is the dotted quad, no IPv4 address, or not leased |
| Ipam.ReleaseFrees | internal/controller/ipam/ipam.go:97-111 | releasing a leased address takes exactly its row, and the next allocation succeeds with the lowest address that is free then |
| Ipam.ForgottenBlocks | internal/controller/ipam/ipam.go:76-91 | an index that forgot the lowest leased address can allocate no more |
| Ipam.Allocator.Allocate | internal/controller/ipam/ipam.go:56-94 | the scan, with 32-bit arithmetic, computes that allocation |
| Ipam.Allocator.Release | internal/controller/ipam/ipam.go:97-111 | clears the index by address and the table by text |
| Ipam.Allocator.constructor | internal/controller/ipam/ipam.go:26-52 | rebuilds the index from the leases |

## Left out

- Transport and platform code (TLS, gRPC, HTTP, WebSocket, STUN, TUN, routing tables, services, user interfaces): wrappers around I/O.
- Certificates and keys: issuing a certificate adds a fresh serial to a table; renewing one is not part of this model.
- SQL: each repository method is one atomic step that may fail; a statement that takes effect and still reports an error is not modelled.
- Deleting nodes by an administrator, which leaves lease and certificate behind and lets an identifier be drawn again.
- Protobuf conversion and per-node assignments: `Service` identifies what is handed out with the result it is built from; which nodes are then notified is all of its roles.
- Deep copies (`copyResult` and the like): values cannot be aliased here, so what the copies protect against cannot arise.
- `BuildGraph` of graph.go and `InjectPublishedPrefixes` of fib.go: nothing above depends on them.
- Version counters are unbounded; the wrap of a 64-bit counter is not modelled.
- Quality scores, ECMP weights other than the constant 100, and locations: floating-point heuristics without a stated law.
- Route lookup and connection choice behind a send: a frame reaches its target, is dropped, or goes to another node that is to send it on, even where relays are forbidden, since the router may name that node as next hop. The connection pool's own accounting is not modelled.
- Probe.ExactlyOnce: counts a reply that finds the waiter's buffer full or gone as lost; a probe whose timeout has passed is such a case.
- Two rounds of a selector at once are not modelled; reports during a round are.
- Frame.ProbeRoundTrip: addresses are four bytes, since the encoder panics on others; converting a float outside the range of 16 bits gives an unspecified word.
- Optimizer.Optimize: takes unique node identifiers and weights whose sums stay below the sentinel, as `Incremental.SampledInputOk` derives from sampled weights.
- Fib.ComputeFIB: a prefix is identified with the address it is made of.
