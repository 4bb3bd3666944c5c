# Verified model of the stackset controller's traffic switching

A stackset controller runs several versions (stacks) of an application side by side and moves
percentages of traffic between them. One reconcile cycle reads the wanted and the current weights,
makes them canonical, lets a reconciler decide whether traffic may switch, stamps idle times, marks
stacks for garbage collection, turns weights into traffic segments, and writes everything back; the
next cycle starts from what was written. This project models that cycle in Dafny and proves what it
keeps, for single operations, for one cycle and for whole runs.

`dafny verify dfyconfig.toml` checks everything.

## How the model is built

The Go code updates containers in place, and so does the model: `StackContainer`,
`StackSetContainer` and `WeightMap` are classes with the fields of the Go structs, the loops over
maps take their keys in any order (`:|`), and the sorts work in place on arrays. Every method is
proved equal to (or a possible outcome of) a function or relation on value views of the containers
(`Stack`, `StackMap`). The theorems are about these.

| file | content |
|---|---|
| Options, Names, Sums, Sorting | absent values, Go's order on strings, totals over maps, insertion sort on arrays |
| Weights, BackendWeights | scaling to 100 and largest-remainder rounding: theory, and the in-place algorithm |
| Stacks, Reconcilers, Traffic | stack containers and their decisions, both reconcilers, one round of traffic management |
| Switching, Targets | what a round guarantees: which weights it aims at, all-or-nothing, readiness, prescaling targets, progress, stability |
| Predicates | printing a segment as a predicate and parsing it back, with the one pattern used |
| Layout, Segments | the layout of segments, and the in-place computation that refines it |
| Partition, Recompute | the layout partitions [0, 1), and the fixed point across cycles |
| Rollout, Coverage, Gaps | the order of rollout, widths and gaps while it runs for any number of stacks, layouts that leave a gap |
| GarbageCollection, Statuses, Persistence | marking stacks for removal, writing and reading status, what survives a save |
| Wishes | from the stored traffic lists to a cycle's weights and back |
| Cycles, Runs, History | a cycle as a transition of the stored state, invariants of all runs, idle-time history |
| Stability, Progress | quiet runs: a completed switch stays complete, and a prescaled one completes in the next cycle |
| CommandLine | the weight algebra of the traffic command |
| CrdTrim | the size bound of the CRD trimmer |

Findings, where the code does not do what its own text says. The model follows the code.

* pkg/core/traffic.go:378-379 says the rollout list is ordered to leave no gaps in traffic assignment.
  `Coverage.RolloutIsGapFreeIff` gives the exact condition for any list and any number of stacks: no
  stack may be listed before one that takes over part of its old segment. Such a list always exists
  (`Coverage.GapFreeOrderExists`), but the code sorts by growth and then by id. Even when its comparator
  works as its comment asks, gaps remain (`Gaps.ThreeStacksCanGap`, and `Gaps.ShiftingStacksCanGap`, where
  only two stacks change weight); `Coverage.IntendedGapFreeIff` and `Coverage.TransferIsGapFreeIff` say when.
* The comparator itself (pkg/core/traffic.go:449-455) is no order: it falls through to the id test even when
  the other segment grows more, so a shrinking segment can be rolled out before the growing one that takes
  over its territory (`Gaps.CodedOrderCanGap`), against its comment (pkg/core/traffic.go:447-448). It is a
  strict weak order exactly if whatever grows more has the smaller id (`Rollout.ComparatorIsOrderIff`); for
  up to 20 changes, which Go sorts by insertion, `Rollout.RolloutDescendsIff` gives the exact condition.
* README.md:168-175 of the repository says the stack limit never deletes a stack with traffic.
  `GarbageCollection.TrafficCanBeRemoved` is a stack set where it does, and
  `GarbageCollection.TrafficIsSparedIff` says for which stacks, exactly.
* pkg/core/traffic.go:420 says segments that did not change are not listed. A stack with traffic but without
  an ingress or a routegroup of its own is listed in every cycle (`Recompute.AlwaysListed`), even when
  nothing changes (`Recompute.ExternalStackIsListedAgain`); `Recompute.RecomputeIsFixed` is exact.

## Model

| member | source | states |
|---|---|---|
| `Weights.NormalizedTotal` | pkg/core/traffic.go:209-229 | scaled weights are non-negative and total exactly 100, on the equal-split and on the scaling branch |
| `Weights.NormalizedFixed` | pkg/core/traffic.go:220-228 | weights that already total 100 are left alone |
| `Weights.NormalizedIff` | pkg/core/traffic.go:220-228 | weights that are not all zero become the one split of 100 that keeps all their ratios |
| `BackendWeights.WeightMap.Normalize` | pkg/core/traffic.go:209-229 | the in-place loops leave the map equal to the specified scaling: all cross products with the old weights agree if some weight is positive, and all weights are equal if none is |
| `Weights.BeforeTotal` | pkg/core/traffic.go:272-283 | of two backends with different names exactly one ranks before the other |
| `Weights.BeforeTransitive` | pkg/core/traffic.go:272-283 | the ranking is transitive, hence a strict total order |
| `Weights.LeftoverInBounds` | pkg/core/traffic.go:284-288 | the slice `[:diff]` is always in bounds: 0 <= diff, and diff is below the number of backends |
| `BackendWeights.SortedChoosesLucky` | pkg/core/traffic.go:272-288 | whatever the map order, sorting puts the same diff backends first, so rounding does not depend on iteration order |
| `BackendWeights.WeightMap.Round` | pkg/core/traffic.go:247-289 | floor loop, sort and distribution loop in place leave the map equal to the specified rounding: every weight at its floor or one more, 100 in total, and one more given in the documented order |
| `Weights.RoundedIff` | pkg/core/traffic.go:268-288 | the rounded weights are the one split of 100 by floors in which whatever gets one more goes before whatever does not: by fraction, then by whole part, then by name |
| `Weights.SameFractionRaised` | pkg/core/traffic.go:268-283 | of two backends with equal fractions the one that gets one more has the bigger whole part, or the same and the smaller name |
| `Weights.EqualWeightsByName` | pkg/core/traffic.go:282-283 | of two equal weights the one with the smaller name gets at least as much, and at most one more |
| `Weights.ThirdsByName` | pkg/core/traffic.go:234-242 | three equal backends get 34, 33 and 33 in the order of their names |
| `Weights.HalfToTheBigger` | pkg/core/traffic.go:268-283 | 12.5 and 87.5 become 12 and 88 |
| `Names.LessIff` | pkg/core/traffic.go:283-283 | the order on names: at the first difference the name that ends or has the smaller character comes first |
| `Weights.RoundedTotal` | pkg/core/traffic.go:231-289 | rounding yields whole non-negative weights that total exactly 100, each strictly within one of its input, so its floor or its ceiling |
| `Weights.RoundedMonotone` | pkg/core/traffic.go:268-288 | a strictly larger input never gets a smaller output |
| `Weights.RoundedIsOptimal` | pkg/core/traffic.go:247-289 | no other split of 100 into whole numbers has a smaller total absolute deviation |
| `Weights.ProjectionOntoCanonical` | pkg/core/traffic.go:202-289 | scale-then-round is a projection: its results are canonical, and it is the identity exactly on canonical weights |
| `Weights.CanonicalSplitsLike` | pkg/core/traffic.go:202-289 | scaled and rounded, every weight times the old total is less than that total away from 100 times the old weight: it is within one of its exact share |
| `Traffic.FindFallbackStack` | pkg/core/traffic.go:475-492 | no other stack was idled later than the one returned, and if none was ever idle no other was created earlier; none only without stacks |
| `Traffic.StackSetContainer.ManageTraffic` | pkg/core/traffic.go:292-373 | the containers and the outcome are a possible result of one round: cleared without ingress, no stacks exactly if there are none to manage, or canonicalised, reconciled, settled and stamped with the stacks that were not ready |
| `Switching.ErrorIffNotSwitched` | pkg/core/traffic.go:340-372 | an error is reported exactly if the actual weights did not become the desired ones, and it names exactly the gaining stacks that are not ready |
| `Switching.RoundWithoutIngress` | pkg/core/traffic.go:293-304 | without ingress, routegroup and external ingress a round leaves no weight, idle time or active prescaling, keeps all else, and reports no error |
| `Switching.RoundSplitsWishes` | pkg/core/traffic.go:319-335 | the desired weights of a round split 100 like the wishes it starts from, each within one of its exact share, or are all on a fallback stack; the weights it falls back to do the same for the actual ones |
| `Switching.RoundKeepsOrder` | pkg/core/traffic.go:319-335 | a round never reverses two wishes, and of two equal ones favours the smaller name |
| `Traffic.CanonicalisesIsCanonical` | pkg/core/traffic.go:314-332 | on the fallback branch and on the scaling branch the weights become whole and total 100 |
| `Reconcilers.ReconcileSimple` | pkg/core/traffic_simple.go:15-39 | the loops compute the blocked stacks and switch the whole vector only if there are none |
| `Reconcilers.ReconcilePrescaling` | pkg/core/traffic_prescaling.go:17-127 | totals, target setting, timeout and gated switch in place equal the specified prescaling round |
| `Switching.AllOrNothing` | pkg/core/traffic.go:340-362 | the whole desired vector becomes actual exactly if no gaining stack is blocked, else the whole canonical previous vector stays; both are canonical |
| `Switching.RoundSwitchesIff` | pkg/core/traffic_prescaling.go:92-127 | a round switches exactly if every stack that is to gain forwards or has enough updated and ready replicas, counted in whole replicas against the percentage of the spec and, with prescaling, the target or the whole deployment |
| `Switching.SimpleRoundSwitchesIff` | pkg/core/traffic_simple.go:15-39 | with the simple reconciler a round switches exactly if every gaining stack that does not forward is up to date, has replicas, and 100 * updated and 100 * ready reach percentage * replicas (all replicas for a percentage outside 1 to 99) |
| `Switching.GainersAreReady` | pkg/core/types.go:161-176 | a stack that gains over the previous canonical vector forwards its traffic, or is up to date with the percentage of its replicas (and at least one) updated and ready, and with prescaling its whole target |
| `Stacks.ReadyIff` | pkg/core/types.go:161-176 | a stack is ready exactly if it forwards, or is up to date, has replicas, and its updated and its ready replicas each reach the wanted part of them, without rounding |
| `Traffic.MeetsPercentIff` | pkg/core/traffic.go:193-201 | the normalised threshold in whole numbers: 100 * some >= percentage * all for 1 to 99, else some >= all |
| `Switching.ReadyHasReadyReplica` | pkg/core/types.go:161-176 | with the normalised percentage, being ready means at least one ready and one updated replica |
| `Switching.RoundHasTraffic` | pkg/core/traffic_prescaling.go:18-60 | from sound prescaling and canonical weights the traffic total is positive: the branch for zero traffic is unreachable |
| `Switching.RoundKeepsSound` | pkg/core/traffic_prescaling.go:42-85 | every round keeps: active prescaling has a positive recorded weight and a set timestamp |
| `Targets.ServingReplicasAreCounted` | pkg/core/traffic_prescaling.go:18-40 | with sound prescaling the estimate counts at least the replicas that run for all stacks with traffic |
| `Targets.EstimateReproduces` | pkg/core/traffic_prescaling.go:58-60 | a stack that alone serves the traffic is estimated to need exactly the replicas it is counted with |
| `Targets.RoundTarget` | pkg/core/traffic_prescaling.go:50-75 | in every prescaling round within the timeout a gaining stack not yet prescaled for its weight ends with the least target t such that t * counted weight >= its weight * counted replicas, or its maximum, and with the weight and timestamp recorded; without counted replicas it gets the replicas of its spec |
| `Targets.RoundTotals` | pkg/core/traffic_prescaling.go:18-40 | the counted replicas and weight are the targets and recorded weights of the prescaled stacks that do not run more, and the running replicas and actual weights of the other stacks with traffic |
| `Targets.UnprescaledTotals` | pkg/core/traffic_prescaling.go:18-40 | when nothing is prescaled the counted weight is 100 and the counted replicas are those running for the stacks with weight |
| `Targets.FirstTarget` | pkg/core/traffic_prescaling.go:50-75 | the first target of a stack is the least t with 100 * t >= its weight * the replicas running for the stacks with weight, or its maximum |
| `Targets.TargetKeepsLoad` | pkg/core/traffic_prescaling.go:18-60 | if every counted stack has q replicas per weight, a fresh target is q replicas per weight, rounded up, or the maximum |
| `Switching.RoundKeepsTarget` | pkg/core/traffic_prescaling.go:50-75 | a gaining stack already prescaled for its weight keeps target and recorded weight, and its timeout starts again |
| `Switching.RoundKeepsWithin` | pkg/core/traffic_prescaling.go:67-70 | a round keeps a stack's target within its maximum, whether the target is fresh or old |
| `Switching.RoundPrescales` | pkg/core/traffic_prescaling.go:50-75 | a prescaling round leaves every stack that still has to gain prescaled for its weight |
| `Switching.PrescaledRoundSwitches` | pkg/core/traffic_prescaling.go:92-127 | once every gaining stack is prescaled for its weight, the round switches exactly when all of them are updated and ready |
| `Switching.StableRound` | pkg/core/traffic_prescaling.go:50-85 | if desired equals actual, a round changes no weight, and prescaling only by ending it after its timeout |
| `Switching.RoundWithoutGain` | pkg/core/traffic_prescaling.go:42-85 | in any round a stack that does not gain, or forwards, keeps its prescaling exactly, unless its timeout has passed, which resets all of it |
| `Switching.RoundKeeps` | pkg/core/traffic.go:364-371 | a round keeps spec, resources, segments and removal mark; the idle time is zero with traffic, else kept, else the round's timestamp |
| `Stacks.StackContainer.GenerateDeployment` | pkg/core/stack_resources.go:198-229 | no deployment when forwarding; none of the replicas if none are asked for or the stack is idle past its TTL; else a running autoscaled deployment is left alone and any other gets the prescaling target or the replicas of the spec (1 if unset) |
| `Stacks.StackContainer.GenerateHPA` | pkg/core/stack_resources.go:267-326 | no autoscaler when forwarding, unscaled or scaled down; with prescaling target <= minimum; minimum <= maximum exactly if the target and the spec's minimum are |
| `Predicates.FindsLeftmostLazy` | pkg/core/traffic.go:40-42 | the modelled search returns the match a leftmost search with lazy groups must return |
| `Predicates.PrintedSegmentIsRead` | pkg/core/stack_resources.go:592-598 | for all hundredths l <= u and any text after it, the printed segment reads back as exactly (l, u) |
| `Predicates.PrintedSegmentIsFound` | pkg/core/traffic.go:154-181 | in a predicate list, entries before it that mention no segment are skipped |
| `Predicates.FirstMentionDecides` | pkg/core/traffic.go:154-183 | the first predicate that mentions a segment decides, readable or not |
| `Predicates.ParsedSigned` | pkg/core/traffic.go:161-176 | a limit is read with its sign, and text that is no number is refused |
| `Recompute.WrittenTexts` | pkg/core/stack_resources.go:406-417 | the texts written for the segment [0, 0.25) with and without a predicate of the stack's own |
| `Recompute.BothAreRead` | pkg/core/traffic.go:67-86 | segments written into both resources of a stack are read exactly if they agree; else the computation fails |
| `Recompute.MissingIngressSegment` | pkg/core/traffic.go:55-86 | a routegroup segment beside a missing ingress segment is refused unless it is (0, 0) |
| `Recompute.UnreadableIngress` | pkg/core/traffic.go:55-64 | an ingress segment without readable limits makes the computation fail |
| `Layout.LimitsAreValid` | pkg/core/traffic.go:102-126 | the limits handed over by the layout loops are never refused |
| `Segments.GatherSegments` | pkg/core/traffic.go:387-405 | the first loop collects the active segments and the weights above zero, and fails exactly if a stack's segments cannot be read |
| `Segments.ComputeTrafficSegments` | pkg/core/traffic.go:380-472 | fails without touching a container exactly if some segment is unreadable; else the containers hold the layout and the list is a result the stable sort of the changed stacks may have |
| `Partition.LayoutPartitions` | pkg/core/traffic.go:407-445 | from any found segments and any map order the new segments partition [0, 1), each exactly as wide as its share, and a stack without share gets (0, 0) |
| `Partition.SurvivorsKeepOrder` | pkg/core/traffic.go:134-143 | stacks active before and after keep the order of the lower limits of their old segments, then of the upper ones; newcomers lie to the right of all survivors |
| `Partition.SettledIsFixed` | pkg/core/traffic.go:407-445 | recomputing from a partition with the wanted widths finds no newcomer and changes nothing |
| `Recompute.CanonicalShares` | pkg/core/traffic.go:388-392 | canonical weights give shares that total 1, each a whole hundredth |
| `Recompute.ComputesPartition` | pkg/core/traffic.go:380-472 | with canonical weights the containers' segments partition [0, 1), each as wide as the stack's weight, with whole hundredths as limits |
| `Recompute.RenderedIsRead` | pkg/core/stack_resources.go:390-421 | limits printed into an ingress (before its own predicate) or a routegroup (after its own) are found again by the next cycle |
| `Recompute.RecomputeIsFixed` | pkg/core/traffic.go:47-89 | after printing and parsing, the same weights give an empty change list exactly if every stack with traffic has an ingress or routegroup of its own, and then the same limits |
| `Recompute.AlwaysListed` | pkg/core/traffic.go:420-445 | a stack with traffic and no ingress or routegroup of its own is listed by every computation |
| `Recompute.ExternalStackIsListedAgain` | pkg/core/traffic.go:420-445 | a single stack that keeps all of [0, 1) is listed all the same |
| `Rollout.ComparatorIsNoOrder` | pkg/core/traffic.go:449-455 | the comparator can put each of two segments before the other |
| `Rollout.RolloutDescendsIff` | pkg/core/traffic.go:447-455 | for up to 20 changes the coded sort delivers descending growth exactly if every change has a larger id than the closest earlier change that must precede it |
| `Rollout.ComparatorIsOrderIff` | pkg/core/traffic.go:449-455 | for any number of changes the coded comparator is a strict weak order exactly if whatever grows more has the smaller id |
| `Rollout.FollowedDescends` | pkg/core/traffic.go:447-455 | then the stable sort of any number of changes delivers descending growth |
| `Sorting.SortIsStable` | pkg/core/traffic.go:449-455 | with a strict weak order, changes of which none precedes the other keep their order |
| `Rollout.RolloutEntries` | pkg/core/traffic.go:424-461 | any list of the changes holds exactly the changed stacks of the layout |
| `Rollout.WidthNeverDips` | controller/stackset.go:1138-1151 | applying a descending list one stack at a time never drops the total width below both its start and its end, for any number of stacks |
| `Rollout.RolloutEndsAtShares` | controller/stackset.go:1138-1151 | applied completely, any list of the changes leaves the segments as wide as the shares |
| `Rollout.WellIdentifiedRolloutKeepsWidth` | pkg/core/traffic.go:447-461 | no step of the coded rollout leaves the segments narrower than 1 if the ids follow the growth, for any number of changes, or up to 20 changes are well numbered |
| `Rollout.IntendedExists` | pkg/core/traffic.go:447-448 | the order the comment intends exists for every layout |
| `Rollout.IntendedRolloutKeepsWidth` | pkg/core/traffic.go:447-448 | in that order no step of any rollout leaves the segments narrower than 1 |
| `Coverage.GapIff` | controller/stackset.go:1138-1151 | after k changes a point is unrouted exactly if its old stack has changed and its new one has not |
| `Coverage.GapFreeStepIff` | controller/stackset.go:1138-1151 | a step routes every point exactly if nothing still to come takes over part of what was already moved |
| `Coverage.RolloutIsGapFreeIff` | pkg/core/traffic.go:376-379 | for any number of stacks and any list of the changes, no step leaves a gap exactly if no stack is listed before one that takes over part of its old segment |
| `Coverage.GapFreeOrderExists` | pkg/core/traffic.go:376-379 | every layout over a partition has a list of its changes that leaves no gap at any step |
| `Coverage.IntendedGapFreeIff` | pkg/core/traffic.go:447-448 | in the intended order there is no gap exactly if every taker grows more than the stack it takes from, or as much with the smaller id |
| `Coverage.CodedGapFreeIff` | pkg/core/traffic.go:447-461 | the same condition is exact for the coded list whenever that is sure to descend |
| `Coverage.TransferIsGapFreeIff` | pkg/core/traffic.go:447-448 | when traffic moves between two stacks and others only shift, the intended list is gap-free exactly if among the shifting ones every taker has the smaller id |
| `Coverage.GrowerFirstCovers` | pkg/core/traffic.go:447-448 | whatever else shifts, rolling out the growing one of two stacks first leaves no gap in that step |
| `Coverage.ShrinkerLastCovers` | pkg/core/traffic.go:447-448 | rolling out the shrinking one last leaves no gap before that step |
| `Coverage.ShrinkerFirstGaps` | pkg/core/traffic.go:447-448 | whatever else shifts, rolling out the shrinking one first leaves a gap |
| `Coverage.TwoStackRollout` | pkg/core/traffic.go:409-461 | with two changed segments the coded rollout is gap-free exactly unless the left one grows and the right one has the smaller id |
| `Gaps.CodedOrderCanGap` | pkg/core/traffic.go:449-455 | a layout of two stacks whose coded rollout leaves exactly [0.3, 0.6) unrouted |
| `Gaps.ThreeStacksCanGap` | pkg/core/traffic.go:447-448 | a layout of three stacks whose rollout in the intended order leaves exactly [0.1, 0.2) unrouted |
| `Gaps.ShiftingStacksCanGap` | pkg/core/traffic.go:376-379 | a layout where two stacks change weight and two shift, whose coded and intended rollout leaves exactly [0.4, 0.5) unrouted |
| `GarbageCollection.MarkExpiredStacks` | pkg/core/stackset.go:127-167 | marks nothing if the candidates do not exceed the limit of the spec, or 10; else as many as leave exactly that many candidates, none last used later than an unmarked one; and changes nothing else |
| `GarbageCollection.ExpiresIff` | pkg/core/stackset.go:128-166 | which sets may be marked, in terms of ingress, weights, idle time, TTL, creation time and limit alone |
| `GarbageCollection.RemovableIff` | pkg/core/stackset.go:135-166 | a stack may be marked exactly if it is a candidate and fewer than candidates - limit of them were last used before it |
| `GarbageCollection.TrafficIsSparedIff` | pkg/core/stackset.go:135-142 | a stack with traffic is never marked exactly if it has an ingress of some kind or at least candidates - limit candidates are older |
| `GarbageCollection.TrafficCanBeRemoved` | README.md:168-175 | the promise that the limit never deletes a stack with traffic fails: a stack set where all traffic is on the stack that is removed |
| `Statuses.StatusRoundTrip` | pkg/core/stack_resources.go:609-630 | saving and reading a status restores the idle time, keeps soundness, and restores prescaling exactly if it is active or has nothing to remember |
| `Statuses.ListedIff` | pkg/core/types.go:252-255 | a traffic list says about a stack what its last entry for it says |
| `Statuses.ReadTraffic` | pkg/core/types.go:251-279 | the loops over a traffic list yield the listed weights of existing stacks, scaled to 100 |
| `Statuses.ReadKeepsRatios` | pkg/core/types.go:251-279 | what is read keeps the ratios of the listed weights of existing stacks, and is 0 for stacks not listed |
| `Statuses.ReadTotal` | pkg/core/types.go:251-279 | what is read totals 100 exactly if an existing stack is listed with a positive weight, else 0 |
| `Statuses.UpdateDesiredTraffic` | pkg/core/types.go:251-279 | every container takes its listed, scaled desired weight, or 0 |
| `Statuses.UpdateActualTraffic` | pkg/core/types.go:283-310 | the same for the actual weights in the status |
| `Statuses.GenerateStackSetTraffic` | pkg/core/stackset.go:377-395 | the sorted list holds exactly the positive desired weights of the stacks that stay and can get traffic |
| `Statuses.GenerateStackSetStatus` | pkg/core/stackset.go:339-375 | the counts are those of the stacks that stay, of the ready ones and of those with a desired or actual weight; the sorted list holds exactly the actual weights |
| `Statuses.PublishedIsUnique` | pkg/core/stackset.go:370-373 | the published list does not depend on the order in which the stacks are visited |
| `Statuses.PublishedIsListed` | pkg/core/types.go:251-258 | reading a published list gives back exactly the weights it was written from |
| `Persistence.PublishedTotal` | pkg/core/stackset.go:348-374 | published weights total 100 exactly if no stack that is being removed carries traffic |
| `Persistence.DesiredSurvivesIff` | pkg/core/stackset.go:377-395 | saving and reading the desired traffic restores every staying stack's weight exactly if no removed stack had weight or no other stack had any; new stacks read 0 |
| `Persistence.ActualSurvivesIff` | pkg/core/types.go:283-310 | the same for the actual weights |
| `Persistence.CollectionKeepsTotal` | pkg/core/stackset.go:135-166 | with an ingress for every stack, marked stacks carry no weight and both saved lists total 100 |
| `Wishes.CycleSplitsWishes` | pkg/core/types.go:251-279 | from the stored traffic list to the desired weights of the cycle: each is within one of the exact share of 100 its listed weight is of all listed weights of existing stacks, or a fallback stack gets everything |
| `Wishes.QuarterAndRest` | pkg/core/traffic.go:209-229 | wishes of 1 and 3 of any unit become exactly 25 and 75 |
| `Wishes.StatusAgreesWithLists` | pkg/core/stack_resources.go:620-622 | the status written for a stack that stays has the weights the written lists have for it |
| `Cycles.UpdateFromResources` | pkg/core/types.go:314-386 | reading the stored state into new containers, with traffic only if it is managed |
| `Cycles.CleanupOldStacks` | controller/stackset.go:809-829 | only marked stacks are deleted, all of them unless a deletion fails, which ends the loop |
| `Cycles.ReconcileStackSet` | controller/stackset.go:1087-1193 | one cycle on mutable containers, with any of its writes failing, takes the stored spec, traffic lists, stacks and statuses through a cycle step |
| `Runs.RunIsSound` | pkg/core/types.go:505-513 | in every state of every run, whichever writes failed, stored active prescaling has a positive weight and a time |
| `Runs.TargetsStayWithinIff` | pkg/core/traffic_prescaling.go:67-70 | over a run every stored target stays within its stack's maximum exactly if no edit lowers a maximum below a target |
| `Runs.CycleIsWithin` | pkg/core/stack_resources.go:319-323 | a cycle that starts with a bounded target generates its autoscaler from a bounded one |
| `Runs.LoweredMaximumBreaks` | pkg/core/traffic_prescaling.go:50-75 | a concrete edit that lowers a maximum below the active target |
| `Runs.CyclesAreCanonical` | pkg/core/traffic.go:292-373 | after every cycle of every run with a stack, desired and actual weights are whole numbers that total 100 |
| `Runs.CyclesPartition` | pkg/core/traffic.go:380-472 | in every cycle of every run with readable segments, the computed segments partition [0, 1), each as wide as the stack's weight |
| `Runs.EstimatesHaveTraffic` | pkg/core/traffic_prescaling.go:18-60 | in every cycle of every run the prescaling estimate divides by a positive total |
| `Runs.PublishedTotals100` | pkg/core/stackset.go:339-375 | in every run, with an ingress for every stack, no removed stack carries weight and the published and saved weights total 100 |
| `History.IdleTimeIsStreakStart` | pkg/core/traffic.go:364-371 | after every cycle of every run `noTrafficSince` is zero exactly with traffic, else the timestamp of the first cycle of the current idle streak |
| `History.ScaledDownIff` | pkg/core/types.go:189-194 | a stack is scaled down exactly if its idle streak started longer ago than the TTL of the spec, or 300 seconds |
| `History.StoppedIff` | pkg/core/stack_resources.go:206-229 | a stack that asks for replicas is stopped exactly if it was idle in every cycle of a streak older than the TTL of the spec, or 300 seconds |
| `Stability.RestCycle` | pkg/core/traffic.go:292-373 | a cycle that reads equal canonical weights changes none, and prescaling only by its timeout |
| `Stability.WrittenReads` | pkg/core/types.go:251-310 | after a quiet cycle the next one reads exactly the desired and actual weights it left, for the stacks that stay |
| `Stability.SwitchStaysComplete` | controller/stackset.go:1087-1193 | after a completed switch every later cycle without new wishes leaves every remaining stack at its weight, through saving, collection and reading |
| `Stability.TargetStays` | pkg/core/traffic_prescaling.go:78-84 | within the reset timeout a prescaled stack keeps its target in all later cycles |
| `Progress.NextCycleSwitchesIff` | pkg/core/traffic_prescaling.go:92-127 | after a prescaling cycle with unchanged wishes and saved statuses the next cycle switches exactly if the whole target of every stack that still had to gain is updated and ready |
| `CommandLine.SetWeightForStacks` | pkg/traffic/traffic.go:164-192 | the loops compute the specified list; it fails exactly if the weight of the only stack with traffic is to be reduced |
| `CommandLine.SecondEntryIsLost` | pkg/traffic/traffic.go:167-190 | only the first entry of the chosen stack takes the weight, and a further one is replaced by an empty entry |
| `CommandLine.NormalizeWeights` | pkg/traffic/traffic.go:208-232 | the loops give every stack its share in percent, or equal shares |
| `CommandLine.NormalizedTotal` | pkg/traffic/traffic.go:204-232 | normalised lists total 100; lists that total 100 stay as they are |
| `CommandLine.NormalizedKeepsRatios` | pkg/traffic/traffic.go:204-232 | normalising keeps names, actual weights and all ratios, or makes all weights equal if there is none |
| `CommandLine.SettingKeepsTotalIff` | pkg/traffic/traffic.go:161-192 | a total of 100 is kept exactly if the stack is listed and did not have all traffic or keeps it, or is not listed and the weight is 0 |
| `CommandLine.SettingKeepsRatios` | pkg/traffic/traffic.go:175-189 | the other stacks keep their ratios |
| `CommandLine.LastSettingCounts` | pkg/traffic/traffic.go:164-192 | path independence: of two settings of a stack below 100 only the last counts |
| `CommandLine.SettingBackRestores` | pkg/traffic/traffic.go:164-192 | setting the old weight back restores the whole list |
| `CrdTrim.Collect` | hack/crd/trim.go:87-106 | the recursive walk returns the specified list of descriptions |
| `CrdTrim.LengthOfEncoded` | hack/crd/trim.go:58-59 | the length is that of the encoded text, for any encoding of strings and scalars |
| `CrdTrim.CollectedDescribe` | hack/crd/trim.go:87-106 | every collected entry is a description of the document at its depth, each property once |
| `CrdTrim.CollectedComplete` | hack/crd/trim.go:87-106 | no description is missed |
| `CrdTrim.TrackedBoundsLength` | hack/crd/trim.go:71-77 | the tracked size never falls below the true length of the encoded document |
| `CrdTrim.Trim` | hack/crd/trim.go:53-85 | in some order of ties, removes the shortest prefix that makes the tracked size fit, and fails if none does |
| `CrdTrim.FitsIff` | hack/crd/trim.go:71-81 | whatever the order of ties, trimming fails exactly if removing all descriptions is not enough |
| `CrdTrim.EmittedFits` | hack/crd/trim.go:71-85 | any emitted document fits the limit and differs from the given one in descriptions only, whatever the order of ties |
| `CrdTrim.KeptDescriptions` | hack/crd/trim.go:64-77 | for every order the sort may give, descriptions outside the removed prefix are unchanged, and none is deeper than a removed one, or as deep and longer |

## Left out

- Kubernetes API calls, informers, events, retries, workers: a cycle is a transition of the stored state, and failing writes are part of it.
- Names and UIDs: one key stands for both; stack names are unique within a stack set.
- Floating point: weights and limits are exact reals, so the last-digit drift of Go's floats is not captured.
- int32 overflow of replica counts, and negative weights in hand-edited specs or statuses.
- Times: whole seconds, with 0 for Go's zero time; the truncation of sub-seconds by the stored form is not captured.
- Clocks: the timestamp of a cycle and one later reading, used for every `time.Since` of that cycle.
- `Predicates.ParseFloat`: decimal notation with a sign only, not Go's exponents, hexadecimal numbers, underscores, Inf or NaN.
- Regular expressions other than the one pattern used; text is a sequence of characters.
- `Sorting.SortSlice`: stands for `sort.Slice`, `sort.Sort` and `sort.SliceStable`; the statements allow every order of ties for the first two, and for the third every permutation of more than 20 changes whose comparator is no strict weak order, where the block merge of Go's library decides.
- Traffic segments are values, as the Go slices hold the structs themselves; `setLimits` is a function on them.
- Errors are outcomes and sets of stack names, without the joined message.
- `Cycles.ReconcileStackSet`: the resources a cycle writes (deployments, segments, autoscalers) change in the steps between cycles, and the metrics of autoscalers, services, config maps, secrets and credentials are not modelled.
- Creation of the current stack and its naming: a new stack appears between cycles.
- A stack's own external ingress: it only decides whether a stack of a stack set without traffic management is listed with weight 0.
- The annotation with backend weights on the stack set's ingress and routegroup, and the rendering of these.
- `CommandLine.SetWeightForStacks`: fetching and patching the ingress annotation around it is not modelled.
- `CrdTrim.Trim`: deletes from a value tree by position, not from shared Go maps in place; YAML parsing and printing are left out.
