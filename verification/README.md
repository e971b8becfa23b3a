# Verification of the shard placer, the write queue and the key-range splitter

The main part models the incremental local search of `psychopomp/placer`. A
search moves one shard at a time to another bin. Each candidate is evaluated in
throw-away canary layers by pushing deltas up a domain tree (shards, bins,
racks, ...), and is committed only if the total fault weight drops. Nothing is
recomputed from scratch. The main results say that this machine always agrees
with the from-scratch placement:

- `Placement` defines the assignment (static home, overridden by moves) and the
  load of any tree node as a flat sum over shards. `Faults` defines the
  objective from it. Neither mentions deltas, layers or caches.
- `Evaluation`, `Propagation` and `Trials` prove that one round of propagation,
  in any order, turns the committed values into the values of the new
  assignment. Every value is followed through the int32 conversions, so the
  recorded value is the load modulo 2^32 and exactly the load when the metrics
  are non-negative and add up to less than 2^31.
- `Constraints` holds the mutable classes (`ExpressionTree`, `Constraint`),
  `Balancing` the two rooted trees of the load balancing constraint, and
  `LocalSearch` the solver. `LocalSearch.IterativeLocalSearch.EvaluateMove`
  gives the weight of a trial as a function of the committed moves and the
  candidate alone, so whatever earlier trials left in the canary layers cannot
  matter. `Solve` returns the whole run: a strictly descending sequence of
  placements that differ by one shard each.
- `Runs` draws the consequences for runs. `Guards` and `DrainAboveBins` show that
  the conditions the incremental code relies on are exactly the ones needed.

`WriteQueue` models the asynchronous write queue as a state machine over its
lock sections. `KeyRanges` models the splitting of a key interval.

## How the code is represented

- `std::function` callbacks of the expression tree are an `Operator` value
  (metric sum, shard count, least or greatest load) and a nullable `Constraint`
  that receives the evaluated nodes. `MetricConstraint` and `DrainConstraint`
  differ only in operator and fault formula and are one class with a
  `FaultRule`.
- Nested hash maps keyed by domain and id are maps keyed by `Node(domain, id)`,
  except in `Committable.MetricsMap`, which keeps both levels and is proved
  equivalent to a flat map.
- Iteration over hash maps and sets, and random draws, are arbitrary choices.
- Movement maps are passed to the tree as immutable snapshots of their two
  indices; nothing below the solver writes them.
- `SolvingState::getMovementMap()` returns a pointer that is never assigned
  (psychopomp/placer/SolvingState.h:71). It is modelled as an empty map.
- Bodies that C++ writes inline are sometimes split into several methods
  (`VisitNode`, `TryTargets`, `KeepMove`, ...), each with its own contract.

Preconditions that carry meaning, and the statement that says exactly when each
is needed: consistency `AFTER` (`Guards.ConsistencyExact`); trials of unmoved
shards away from home (`Guards.GuardsExact`); drain constraints scoped to bins
(`DrainAboveBins.DrainTrialExact` and `DrainInitialExact`); every node listed
under one parent, once (`State.SolvingState.constructor`); a scope with a bin
(`MappingTree.ScopeUsable`, since `getParents` throws otherwise,
psychopomp/placer/SparseMappingTree.cpp:54); key ranges that end below 2^64
(`KeyRanges.SplitExact`). Constraints are created on a state whose canary layers
are empty, as on a fresh state.

Where code and intent differ, the model follows the code: `sumOperator` reads
metric 0 whatever metric it is given (its local variable shadows the
parameter); a node that never had a shard has no entry and contributes nothing,
so with a negative capacity the ledger and the full objective differ by exactly
`Faults.Unrecorded`; a drain constraint above the bins counts changed children,
not shards; a failed write is never popped and never retried.

## Model

| member | source | states |
|---|---|---|
| Placement.LoadThroughChildren | psychopomp/placer/constraints/ConstraintUtils.h:85-105 | the flat load of a node above the bins is the sum of its children's loads, the fact that delta propagation rests on |
| Placement.AboveThroughChild | psychopomp/placer/SparseMappingTree.cpp:33-46 | a bin lies below a node through exactly one of its children, or not at all |
| Placement.LayerTotal | psychopomp/placer/constraints/ConstraintUtils.h:83-106 | the loads of a layer covering all bins add up to the total weight, whatever was moved |
| Placement.LoadNeverTruncated | psychopomp/placer/ExpressionTree.cpp:79-82 | with non-negative metrics every load is between 0 and the total, so a total below 2^31 never truncates |
| Placement.ShardsOfBin | psychopomp/placer/constraints/ConstraintUtils.h:55-72 | below a bin are exactly the shards moved there and those at home there that were not moved |
| Evaluation.LoadIsPlain | psychopomp/placer/SolvingState.cpp:67-69 | a load is the sum of the entries that the metric vector holds for the shards below the node (metric 0 for sums, its own metric for the load balancing operator), or their number |
| Evaluation.SingleShardBin | psychopomp/placer/constraints/ConstraintUtils.h:93-95 | a bin with a single shard weighs the entry of that shard in metric vector 0 |
| Evaluation.BinLoadChange | psychopomp/placer/constraints/ConstraintUtils.h:85-105 | adding entering and subtracting leaving shards updates a bin's load exactly, for any set of changed shards |
| Evaluation.BinStep | psychopomp/placer/constraints/ConstraintUtils.h:74-107 | with AFTER, the value computed for a bin from its changed shards is the from-scratch value (sum or count) as an int32 |
| Evaluation.NodeStep | psychopomp/placer/constraints/ConstraintUtils.h:94-106 | above the bins, "current minus committed" over the changed children yields the from-scratch value modulo 2^32 |
| Evaluation.QuietSum | psychopomp/placer/ExpressionTree.cpp:81-89 | a node none of whose children was written keeps a correct value, so stopping the propagation is sound |
| Evaluation.ExtremumStep | psychopomp/placer/constraints/LoadBalancingConstraint.h:97-110 | recomputing least or greatest from the recorded children gives the extreme over all used bins below, at the root over the scope too |
| Evaluation.CachedExtreme | psychopomp/placer/constraints/LoadBalancingConstraint.h:97-110 | a recorded value above the bins, the root included, is the true extreme of the recorded children and of the bins below, although only ancestors of changes are recomputed |
| Evaluation.FilteredSumIsLoad | psychopomp/placer/constraints/LoadBalancingConstraint.h:87-96 | the from-scratch sum over a bin's filtered children is the bin's load |
| Evaluation.MembersPartition | psychopomp/placer/SparseMappingTree.cpp:66-87 | incoming and static children filtered by AFTER list every shard once, in the bin where it will be, for moves of different shards away from home |
| Propagation.Context.EvaluatedRight | psychopomp/placer/ExpressionTree.cpp:75-82 | whatever was evaluated before in the same round, a notified node gets its from-scratch value |
| Propagation.Context.RoundWrite | psychopomp/placer/ExpressionTree.cpp:81-88 | writing a value and notifying the parent keeps: the next round's lists name exactly the written children, each once |
| Propagation.Context.RoundEnd | psychopomp/placer/ExpressionTree.cpp:92-94 | after a round, notified or not, every node of the domain is settled and the next domain can start |
| Propagation.Context.AllSettled | psychopomp/placer/ExpressionTree.cpp:92-94 | when nobody is left to notify, all higher nodes are correct too |
| Propagation.Context.CanaryDetermined | psychopomp/placer/ExpressionTree.cpp:67-95 | the canary layer of a finished propagation is determined by the committed layer and the placement, whatever order the hash maps are visited in |
| Trials.TrialStarts | psychopomp/placer/ExpressionTree.cpp:24-43 | for canary moves of unmoved shards away from home, the bins are told exactly about the shards that enter or leave |
| Trials.InitialStarts | psychopomp/placer/ExpressionTree.cpp:50-65 | the initial evaluation tells each bin of the tree exactly about its home shards |
| ConstraintUtils.ShouldConsiderShard | psychopomp/placer/constraints/ConstraintUtils.h:10-42 | BEFORE: some map moves the shard to another bin; AFTER: every map that moves it moves it here; BOTH: always; DURING: some map moves it |
| ConstraintUtils.SumOperator | psychopomp/placer/constraints/ConstraintUtils.h:74-107 | computes the specified step value for metric 0, int32 conversions included |
| ConstraintUtils.ShardCountOperator | psychopomp/placer/constraints/ConstraintUtils.h:110-136 | computes the specified step value with weight 1 |
| ConstraintUtils.GetFutureBin | psychopomp/placer/constraints/ConstraintUtils.h:55-72 | first movement map that moves the shard, else its home in this tree, else bin 0 |
| ConstraintUtils.FutureBinHolds | psychopomp/placer/constraints/ConstraintUtils.h:55-72 | for moves of different shards away from home, the future bin is the one bin whose filtered child list contains the shard |
| LoadBalancing.Calculate | psychopomp/placer/constraints/LoadBalancingConstraint.h:68-111 | computes the filtered bin sum, or the least or greatest recorded child value of any other node, the root included |
| Balancing.RootedIndexes | psychopomp/placer/constraints/LoadBalancingConstraint.h:16-19 | a partial tree with the root (10, 0) added over its scope indexes the forest in which only the root skips domains |
| Balancing.RootIsExtreme | psychopomp/placer/constraints/LoadBalancingConstraint.h:97-115 | the root has a value once a bin in the scope was used, and then it is the extreme of the recorded scoped nodes and of the loads of the used bins in the scope |
| Balancing.LoadBalancingConstraint.constructor | psychopomp/placer/constraints/LoadBalancingConstraint.h:9-54 | both rooted trees are built and evaluated: their roots hold the least and greatest load of the home bins in the scope |
| Balancing.LoadBalancingConstraint.CanaryMoves | psychopomp/placer/constraints/LoadBalancingConstraint.h:56-63 | after every trial both roots, and every scoped node, hold the least or greatest load of the new placement: no used bin of the scope, summed up from its metric vector, is below the value at (10, 0) of the first tree or above that of the second, and both are attained; committed values are kept |
| MappingTree.MappedRepresents | psychopomp/placer/SparseMappingTree.cpp:10-31 | adding a mapping keeps the two indices mutual inverses over the forest |
| MappingTree.SecondParentIgnored | psychopomp/placer/SparseMappingTree.cpp:25-30 | an input that fails: a child listed under two parents keeps the first, and the indices no longer represent any forest |
| MappingTree.ScopeUsable | psychopomp/placer/SparseMappingTree.cpp:48-54 | the partial tree of a scope has the bins that getParents looks up if and only if a bin lies at or below the scope |
| MappingTree.SparseMappingTree.AddMapping | psychopomp/placer/SparseMappingTree.cpp:10-31 | the whole new index; a conflicting child domain leaves it unchanged |
| MappingTree.SparseMappingTree.GetParents | psychopomp/placer/SparseMappingTree.cpp:33-64 | static parents without repetition, then the targets of the movement maps that belong to the tree, in order |
| MappingTree.SparseMappingTree.GetChildrenWithMoves | psychopomp/placer/SparseMappingTree.cpp:66-87 | static children plus incoming shards of all maps, with multiplicities |
| MappingTree.SparseMappingTree.CreatePartialTree | psychopomp/placer/SparseMappingTree.cpp:127-157 | terminates and holds exactly the edges whose parent reaches the scope, also for repeated roots |
| MappingTree.QueueShrinks | psychopomp/placer/SparseMappingTree.cpp:143-154 | the total unfolded size of the queued nodes drops in every step of the walk |
| State.SolvingState.constructor | psychopomp/placer/SolvingState.cpp:9-41 | for every domain mapping the index holds its lists; it represents a forest, and then edge for edge the mapping, if and only if no node is listed twice |
| State.ForestNeeded | psychopomp/placer/SparseMappingTree.cpp:25-30 | whatever index holds the lists of a mapping that lists a node under two parents, or twice under one, its two halves represent no forest |
| Committable.CommittableMap.Commit | psychopomp/placer/utils/Committable.h:31-34 | no read changes, the committed layer takes the view, the canary layer is empty |
| Committable.MetricsMap.Commit | psychopomp/placer/utils/Committable.h:72-90 | the same for the nested map, through both levels of copying |
| Committable.Replay | psychopomp/placer/utils/Committable.h:25-36 | every sequence of canary writes, clears and commits on the nested overlay behaves like a flat map with one open transaction |
| Committable.DiscardRestores | psychopomp/placer/utils/Committable.h:36 | clear restores the last committed snapshot for every key |
| Committable.WriteIsRead | psychopomp/placer/utils/Committable.h:25-29 | after any operations a canary write is seen by reads of its node and by no other, and the committed snapshot stays |
| Committable.KeepIsIdempotent | psychopomp/placer/constraints/Constraint.h:20-26 | committing makes what is read the committed snapshot, changes no read, and committing again changes nothing |
| Movements.AddKeepsInverseIff | psychopomp/placer/MovementMap.cpp:5-8 | incoming sets stay the inverse of the next-bin map exactly when the shard had no other target |
| Movements.MovementMap.AddMovements | psychopomp/placer/MovementMap.cpp:40-44 | both indices after merging another map, in any order |
| Movements.MovementMap.RemoveMovement | psychopomp/placer/MovementMap.cpp:10-16 | removes the shard and keeps the indices inverse |
| Constraints.ExpressionTree.PropagateChanges | psychopomp/placer/ExpressionTree.cpp:67-95 | terminates, evaluates each node at most once and lower domains first, writes evaluated nodes only, leaves committed values alone, makes every node of the tree correct, and reports each fault change to the ledger |
| Constraints.ExpressionTree.InitializeMetricState | psychopomp/placer/ExpressionTree.cpp:50-65 | all node values are those of the static homes; recorded sums add up the metric entries of the shards at home below the node |
| Constraints.ExpressionTree.CanaryMoves | psychopomp/placer/ExpressionTree.cpp:24-43 | after any number of canary moves of unmoved shards all node values, at every layer, are those of the new placement, whatever the canary layer held; recorded sums add up the metric entries of the shards below the node; each node was evaluated at most once |
| Constraints.Constraint.constructor | psychopomp/placer/constraints/CapacityConstraint.h:9-32 | committed values and faults are those of the static homes, and the shared weights grow by exactly this constraint's faults |
| Constraints.Constraint.UpdateWeightIfPossible | psychopomp/placer/constraints/CapacityConstraint.h:58-80 | records the fault; the total changes by the fault minus the previous entry, and so does the weight of that bin, and of no other, if the scope is bins |
| Constraints.Constraint.AddBinWeight | psychopomp/placer/constraints/Constraint.h:32-38 | adds the delta to one bin and to the total in the canary layer, nothing else |
| Constraints.Constraint.CanaryMoves | psychopomp/placer/constraints/CapacityConstraint.h:34-39 | fault entries become those of the trial and the shared weights change by the difference to the committed placement |
| Constraints.Constraint.Commit | psychopomp/placer/constraints/Constraint.h:20-26 | own layers and shared ledger take what was read; an evaluated placement becomes the committed one |
| Faults.SyncedFaults | psychopomp/placer/constraints/CapacityConstraint.h:58-64 | fault entries in step with node values are exactly the from-scratch faults |
| Faults.FaultIsPlain | psychopomp/placer/constraints/CapacityConstraint.h:62-65 | a capacity fault is the excess over the capacity times the fault weight, as an int, and a drain fault the count times the fault weight |
| Faults.BinWeightIsSum | psychopomp/placer/constraints/CapacityConstraint.h:74-78 | the weight of a bin is the sum, over the constraints scoped to bins, of the fault of the load of its shards |
| Faults.LedgerVersusObjective | psychopomp/placer/constraints/Constraint.h:32-45 | total of fault entries plus the faults of never touched nodes is the objective over whole scopes |
| Faults.OrdinaryObjective | psychopomp/placer/constraints/CapacityConstraint.h:62-65 | with non-negative capacities the ledger is the objective |
| LocalSearch.IterativeLocalSearch.UpdateWeights | psychopomp/placer/IterativeLocalSearch.h:129-135 | with all constraints evaluated, total weight and every bin weight are the sums of the trial's fault entries; committed layers unchanged |
| LocalSearch.IterativeLocalSearch.EvaluateMove | psychopomp/placer/IterativeLocalSearch.h:110-119 | the trial's weight is the weight of the committed moves with the candidate added, independent of earlier trials |
| LocalSearch.IterativeLocalSearch.DrawTargets | psychopomp/placer/IterativeLocalSearch.h:98-107 | distinct bins other than the source bin, min(number of other bins, 50) of them |
| LocalSearch.IterativeLocalSearch.GetMovementForBin | psychopomp/placer/IterativeLocalSearch.h:70-127 | a movement found takes an unmoved shard from its home to another bin with strictly lower weight; otherwise no shard is left in the bin or one of its shards improves nothing in a full draw of targets, and committed layers and weight are untouched |
| LocalSearch.IterativeLocalSearch.TryShards | psychopomp/placer/IterativeLocalSearch.h:95-125 | ten draws of a shard and of targets are tried before the bin gives up, and none of them improves anything |
| LocalSearch.IterativeLocalSearch.ShardsStillIn | psychopomp/placer/IterativeLocalSearch.h:77-90 | exactly the shards whose home is the bin and that no committed move has taken |
| LocalSearch.IterativeLocalSearch.HottestFirst | psychopomp/placer/IterativeLocalSearch.h:39-46 | all bins with their int32 weights; a bin that comes first weighs more, or the same with a larger id |
| LocalSearch.IterativeLocalSearch.FindMove | psychopomp/placer/IterativeLocalSearch.h:49-61 | the movement comes from the first bin of the order that yields one; every bin before it gave up, or all did |
| LocalSearch.AskedInOrder | psychopomp/placer/IterativeLocalSearch.h:39-61 | asking in that order means that a move is taken from a bin only after every hotter bin, by its fault entries, gave up |
| LocalSearch.IterativeLocalSearch.CommitAll | psychopomp/placer/IterativeLocalSearch.h:54-57 | every committed layer takes the evaluated placement and every canary layer is empty |
| LocalSearch.IterativeLocalSearch.Solve | psychopomp/placer/IterativeLocalSearch.h:21-68 | the returned moves end a strictly improving run of one-shard moves, each from the hottest bin that yields one, at most maxIterations long and shorter only if every bin gives up; committed layers and both movement indices agree with them |
| Runs.AddConstraint | psychopomp/placer/constraints/CapacityConstraint.h:24-32 | any number of constraints created on one fresh state share the ledger correctly, which is what Solve needs |
| Runs.MovesOfRun | psychopomp/placer/IterativeLocalSearch.h:35-65 | one committed move per productive iteration, each away from the home bin to an existing bin |
| Runs.MovedOnce | psychopomp/placer/IterativeLocalSearch.h:82-89 | a shard that was moved is never moved again |
| Runs.StopsAtOptimum | psychopomp/placer/IterativeLocalSearch.h:98-127 | with at most 51 bins, an early stop leaves in each bin no unmoved shard or one that no move can improve, hence a local optimum when no bin has two unmoved shards |
| Runs.HotterBinsGaveUp | psychopomp/placer/IterativeLocalSearch.h:39-61 | in every step of a run the shard is taken from a bin only after every bin with a larger weight, or the same and a larger id, gave up |
| Runs.RunPartition | psychopomp/placer/SparseMappingTree.cpp:66-87 | in every trial of a run the filtered child lists of the bins partition the shards according to the placement tried |
| Runs.RunFutureBin | psychopomp/placer/constraints/ConstraintUtils.h:55-72 | in every trial of a run the future bin of a shard is its bin in the placement tried and the bin whose filtered list contains it |
| Runs.RunLoadsAgree | psychopomp/placer/constraints/LoadBalancingConstraint.h:77-96 | in every evaluated trial of a run the bin load that a capacity constraint maintains by deltas is the load balancing operator's sum from scratch |
| Runs.RunIsDescent | psychopomp/placer/IterativeLocalSearch.h:118-123 | the number of moves is at most the weight gained and at most the number of shards |
| Runs.MovesBoundedByWeight | psychopomp/placer/IterativeLocalSearch.h:118-123 | with faults that cannot be negative it is at most the initial weight |
| Runs.ObjectiveDescends | psychopomp/placer/IterativeLocalSearch.h:118-123 | every committed move strictly lowers the from-scratch objective over whole scopes, unless an empty node has a negative fault |
| Runs.TrialWeightIsObjective | psychopomp/placer/IterativeLocalSearch.h:118-119 | the weight read is the from-scratch objective up to never touched nodes, and equal to it for non-negative capacities |
| Runs.TrialWeightIsPlain | psychopomp/placer/constraints/CapacityConstraint.h:62-65 | if loads and faults are not negative and fit an int, the weight read is the sum of unconverted faults over the metric sums or numbers of the shards below the scoped nodes |
| Guards.GuardsExact | psychopomp/placer/IterativeLocalSearch.h:82-106 | a trial updates every bin correctly if and only if the shard is unmoved and the target is not its home, or it weighs nothing |
| Guards.TrialParentsOfTree | psychopomp/placer/SparseMappingTree.cpp:48-61 | the notified bins in that statement are the ones the tree reports |
| Guards.ConsistencyExact | psychopomp/placer/constraints/ConstraintUtils.h:85-105 | source and target bin are updated correctly if and only if the mode is AFTER or the shard weighs nothing |
| DrainAboveBins.DrainTrialExact | psychopomp/placer/constraints/ConstraintUtils.h:121-135 | a trial keeps a right count above the bins right if and only if the node does not lie above the home of the shard |
| DrainAboveBins.DrainInitialExact | psychopomp/placer/constraints/ConstraintUtils.h:121-135 | the initial count above the bins is the number of non-empty children: right if and only if no child holds more than one shard, up to multiples of 2^32 |
| DrainAboveBins.TrialOfTree | psychopomp/placer/ExpressionTree.cpp:67-95 | the evaluation of a count tree leaves the state that the two statements are about |
| DrainAboveBins.RackCountsThree | psychopomp/placer/constraints/ConstraintUtils.h:121-135 | an input that fails: moving the only shard of a two-bin rack to the other bin makes the rack count 3 |
| Guards.LayerConserved | psychopomp/placer/constraints/ConstraintUtils.h:83-106 | recorded values of a covering layer are untruncated and add up to the same total in every placement |
| WriteQueue.RequestHandler.AttemptWrite | server_utils/RequestHandler.h:66-75 | hands over the front and sets the flag, unless a write is under way or the queue is empty; the queue stays |
| WriteQueue.RequestHandler.FinishWrite | server_utils/RequestHandler.h:93-100 | pops the front exactly after success and clears the flag |
| WriteQueue.RequestHandler.ProcessWrite | server_utils/RequestHandler.h:38-48 | the WRITE case as a composition of the lock sections, failure and stop included |
| WriteQueue.CompletionSteps | svc_discovery/RequestHandler.cpp:83-91 | a successful completion pops the front and, exactly if the handler has not stopped, makes one attempt that may put the next front under way |
| WriteQueue.QueueIsFifo | server_utils/RequestHandler.h:38-100 | over all interleavings: one outstanding write, the front; acknowledged plus queued is the enqueue history; no lost wake-up |
| WriteQueue.OnlyCompletedAcked | server_utils/RequestHandler.h:38-48 | over all interleavings: the history is what was enqueued, no more messages are acknowledged or about to be than writes completed successfully, none has failed without a failed completion, and attempts never exceed calls of write and successful completions |
| WriteQueue.SuccessIsAcked | server_utils/RequestHandler.h:38-41 | completing the outstanding write successfully acknowledges and removes the front |
| WriteQueue.FailureIsKept | server_utils/RequestHandler.h:38-41 | completing it with an error keeps it at the front of the queue, unacknowledged, whatever happens next |
| WriteQueue.WriteSteps | server_utils/RequestHandler.h:61-64 | an uninterrupted write appends its message and puts the front under way unless a write already is |
| WriteQueue.FailedWriteStalls | server_utils/RequestHandler.h:38-48 | after a failed write nothing is written or acknowledged any more |
| WriteQueue.StuckFlagStalls | server_utils/RequestHandler.h:108 | if the uninitialised flag starts true, nothing is ever written |
| KeyRanges.GenerateShardKeyRangeMap | psychopomp/SolvingManagerUtils.h:7-26 | exact layout and number of the ranges, at most numShards distinct ones, end reached and exceeded by at most max(r, 2 * numShards - 1) |
| KeyRanges.SplitExact | psychopomp/SolvingManagerUtils.h:7-26 | with 64-bit sums the loops end with ascending ranges that cover the interval, at most one distinct range per shard, if and only if the last range ends below 2^64 |
| KeyRanges.SplitIsLayout | psychopomp/SolvingManagerUtils.h:16-25 | after any number of rounds the computed ranges are the intended ones if and only if the last boundary is at most 2^64 |
| KeyRanges.FitsMeansNoWrap | psychopomp/SolvingManagerUtils.h:16-25 | it is enough that end plus max(r, 2 * numShards - 1) fits 64 bits |
| KeyRanges.RangesCover | psychopomp/SolvingManagerUtils.h:16-25 | every key from start to the last end lies in a range |
| KeyRanges.RangesDisjoint | psychopomp/SolvingManagerUtils.h:16-25 | ranges ascend without overlap, except that the first is listed twice when numShards % r > 0 |
| KeyRanges.WrappedSplitNeverEnds | psychopomp/SolvingManagerUtils.h:21-25 | an input that fails: one range over all 64-bit keys wraps to 0 and the second loop never reaches the end |

## Left out

- Constraints.Constraint.constructor: drain constraints above the bins and modes other than AFTER, because their values do not follow the placement (see `DrainAboveBins` and `Guards`); scopes without a bin, because the first trial throws.
- KeyRanges.GenerateShardKeyRangeMap: inputs with end below start, where the unsigned difference wraps, and what the loops do when the last range would end at or beyond 2^64, except that they yield no split.
- LocalSearch.IterativeLocalSearch.DrawTargets: repeated random draws of the same bin, which change nothing, and the probability that drawing ends.
- Balancing.LoadBalancingConstraint.CanaryMoves: the weight update of the load balancing constraint, which uses floating point and never stores its faults, and the set of updated scope nodes that only it reads; so such a constraint is not among those of `LocalSearch`.
- Balancing.LoadBalancingConstraint.constructor: scopes in domain 10 or above, where the root's domain would collide with the scope's.
- Ledger sums are mathematical integers, not int64; the int conversion of a capacity fault is modelled, int32 subtraction overflow is taken to wrap.
- `getIncomingShards` inserts an empty set for an unknown bin; the model reads without inserting.
- Exclusion and locality constraints, node mapping, protobuf and gRPC plumbing, the read side of the request handler, generators and mock bins.
- A second `solve` on the same state: a failed last iteration leaves canary entries behind, and the next run would have to start from a committed state.
