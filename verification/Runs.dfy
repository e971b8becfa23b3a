/** Consequences for whole runs of the search, and the set-up that runs start from. */
module Runs {
  import opened Basics
  import opened Sums
  import opened Placement
  import opened Movements
  import opened MappingTree
  import opened Evaluation
  import opened State
  import opened Faults
  import opened Constraints
  import opened LocalSearch
  import opened Committable
  import opened Trials
  import opened Guards
  import opened ConstraintUtils

  // ----- Setting up -----

  /** A state without constraints has an empty ledger. */
  lemma NoConstraints(state: SolvingState)
    requires state.Valid()
    requires state.binWeightMap.committedMap == map[] && state.binWeightMap.canaryMap == map[]
    requires state.totalWeight.committedVal == None && state.totalWeight.canaryVal == None
    ensures Installed(state, []) && CommittedAt(state, [], Placed(state, map[])) && NoCanary(state, [])
  {
  }

  /** Constraints created one after the other on a fresh state share its ledger correctly. */
  method AddConstraint(state: SolvingState, constraints: seq<Constraint>, rule: FaultRule, domain: Domain,
                       domainIds: seq<DomainId>)
    returns (more: seq<Constraint>)
    requires Installed(state, constraints) && NoCanary(state, constraints)
    requires CommittedAt(state, constraints, Placed(state, map[]))
    requires rule.Drain? ==> domain == BIN_DOMAIN
    requires rule.Capacity? ==> forall s :: s in state.world.home ==>
               0 < |state.metricVectors| && s < |state.metricVectors[0]|
    requires ScopeHasBin(state, domain, domainIds)
    modifies state.binWeightMap, state.totalWeight
    ensures |more| == |constraints| + 1 && more[..|constraints|] == constraints
    ensures more[|constraints|].spec == ConstraintSpec(rule, AFTER, domain, set id | id in domainIds)
    ensures Installed(state, more) && NoCanary(state, more)
    ensures CommittedAt(state, more, Placed(state, map[]))
  {
    hide SolvingState.Valid, Constraint.Valid, Constraint.Ready, ScopeHasBin, FaultsOf, TotalWeight, BinWeight;
    hide BinPart, ConstraintWeight, LedgerAt, Flat;
    ghost var cfg := Placed(state, map[]);
    LedgerRead(state, constraints, cfg);
    var c := new Constraint(state, rule, AFTER, domain, domainIds);
    more := constraints + [c];
    LedgerExtended(state, constraints, c, cfg);
    forall i, j | 0 <= i < j < |more|
      ensures Separate(more[i], more[j])
    {
      if j == |constraints| {
        assert more[i] in constraints;
      }
    }
    CommittedRead(state, more, cfg);
  }

  lemma LedgerRead(state: SolvingState, constraints: seq<Constraint>, cfg: Config)
    requires CommittedAt(state, constraints, cfg) && NoCanary(state, constraints)
    ensures state.Total() == TotalWeight(state.world, Specs(constraints), cfg)
    ensures forall b :: state.BinTotal(b) == BinWeight(state.world, Specs(constraints), cfg, b)
  {
    hide Constraint.Ready, TotalWeight, BinWeight, EmptyOverlay;
    assert state.binWeightMap.View() == state.binWeightMap.committedMap;
  }

  lemma CommittedRead(state: SolvingState, constraints: seq<Constraint>, cfg: Config)
    requires forall c :: c in constraints ==> c.Ready(cfg)
    requires state.binWeightMap.canaryMap == map[] && state.totalWeight.canaryVal == None
    requires state.Total() == TotalWeight(state.world, Specs(constraints), cfg)
    requires forall b :: state.BinTotal(b) == BinWeight(state.world, Specs(constraints), cfg, b)
    ensures CommittedAt(state, constraints, cfg)
  {
    hide Constraint.Ready, TotalWeight, BinWeight;
    assert state.binWeightMap.View() == state.binWeightMap.committedMap;
    forall b
      ensures ValueOrZero(state.binWeightMap.committedMap, b) == BinWeight(state.world, Specs(constraints), cfg, b)
    {
      assert state.BinTotal(b) == BinWeight(state.world, Specs(constraints), cfg, b);
    }
  }

  lemma LedgerExtended(state: SolvingState, constraints: seq<Constraint>, c: Constraint, cfg: Config)
    ensures TotalWeight(state.world, Specs(constraints + [c]), cfg)
         == TotalWeight(state.world, Specs(constraints), cfg) + ConstraintWeight(state.world, c.spec, cfg)
    ensures forall b :: BinWeight(state.world, Specs(constraints + [c]), cfg, b)
              == BinWeight(state.world, Specs(constraints), cfg, b)
              + BinPart(c.spec, FaultsOf(state.world, c.spec, cfg), b)
  {
    assert Specs(constraints + [c])[..|constraints|] == Specs(constraints);
  }

  // ----- What a run guarantees -----

  /** Committed moves only grow, one shard per step, each away from its home to an existing bin. */
  lemma {:induction false} MovesOfRun(state: SolvingState, constraints: seq<Constraint>, trace: seq<ShardBins>)
    requires IsRun(state, constraints, trace)
    ensures var final := trace[|trace| - 1];
            && |final| == |trace| - 1
            && (forall s :: s in final ==>
                s in state.world.home && final[s] < state.numBins && final[s] != state.world.home[s])
  {
    hide WeightAt, HotterGiveUp;
    if |trace| > 1 {
      var front, n := trace[..|trace| - 1], |trace| - 2;
      assert forall k :: 0 <= k < |front| - 1 ==> Improves(state, constraints, trace[k], trace[k + 1]);
      MovesOfRun(state, constraints, front);
      assert Improves(state, constraints, trace[n], trace[n + 1]);
      var s, b :| MayMove(state, trace[n], s, b) && trace[n + 1] == trace[n][s := b];
    }
  }

  /** A shard that was moved is never moved again. */
  lemma {:induction false} MovedOnce(state: SolvingState, constraints: seq<Constraint>, trace: seq<ShardBins>,
                                     i: nat, j: nat, shard: DomainId)
    requires IsRun(state, constraints, trace) && i <= j < |trace| && shard in trace[i]
    ensures shard in trace[j] && trace[j][shard] == trace[i][shard]
    decreases j
  {
    hide WeightAt, HotterGiveUp;
    if i < j {
      MovedOnce(state, constraints, trace, i, j - 1, shard);
      assert Improves(state, constraints, trace[j - 1], trace[j - 1 + 1]);
    }
  }

  /**
   Every productive iteration lowers the weight by at least one, and uses up
   one shard: the number of moves is bounded by the weight gained and by the
   number of shards.
   */
  lemma {:induction false} RunIsDescent(state: SolvingState, constraints: seq<Constraint>, trace: seq<ShardBins>)
    requires IsRun(state, constraints, trace)
    ensures |trace| - 1 <= WeightAt(state, constraints, map[]) - WeightAt(state, constraints, trace[|trace| - 1])
    ensures |trace| - 1 <= |state.world.home|
  {
    hide WeightAt, MayMove, HotterGiveUp;
    MovesOfRun(state, constraints, trace);
    if |trace| > 1 {
      var front, n := trace[..|trace| - 1], |trace| - 2;
      assert forall k :: 0 <= k < |front| - 1 ==> Improves(state, constraints, trace[k], trace[k + 1]);
      RunIsDescent(state, constraints, front);
      assert Improves(state, constraints, trace[n], trace[n + 1]);
    }
    var final := trace[|trace| - 1];
    assert final.Keys <= state.world.home.Keys;
    SubsetCount(final.Keys, state.world.home.Keys);
  }

  lemma SubsetCount<T>(A: set<T>, B: set<T>)
    requires A <= B
    ensures |A| <= |B|
  {
    assert B == A + (B - A);
  }

  // ----- Every trial of a run -----

  /** The committed moves of a run, as the two indices of their movement map, and a candidate that may be tried next. */
  ghost predicate TrialOfRun(state: SolvingState, constraints: seq<Constraint>, trace: seq<ShardBins>,
                             committed: MovementIndex, shard: DomainId, target: DomainId)
  {
    && IsRun(state, constraints, trace) && committed.Inverse() && committed.next == trace[|trace| - 1]
    && MayMove(state, committed.next, shard, target)
  }

  /** All moves of a run, and the candidate, lead away from home. */
  lemma RunMovesAway(state: SolvingState, constraints: seq<Constraint>, trace: seq<ShardBins>,
                     committed: MovementIndex, shard: DomainId, target: DomainId)
    requires TrialOfRun(state, constraints, trace, committed, shard, target)
    ensures MovesAway(state.world, committed) && MovesAway(state.world, NO_MOVES.Added(shard, target))
    ensures TrialMoves(state.world, committed.next, NO_MOVES.Added(shard, target).next)
    ensures committed.next + NO_MOVES.Added(shard, target).next == committed.next[shard := target]
  {
    hide WeightAt, IsRun, MovementIndex.Inverse;
    MovesOfRun(state, constraints, trace);
    NoMovesInverse();
    AddKeepsInverseIff(NO_MOVES, shard, target);
  }

  /** In every trial of a run, the filtered child lists of the bins partition the shards. */
  lemma RunPartition(state: SolvingState, constraints: seq<Constraint>, trace: seq<ShardBins>,
                     committed: MovementIndex, shard: DomainId, target: DomainId)
    requires TrialOfRun(state, constraints, trace, committed, shard, target)
    ensures MovesMatch(state.world, [NO_MOVES, committed, NO_MOVES.Added(shard, target)],
                       Placed(state, committed.next[shard := target]))
  {
    hide MovesMatch, MovesAway, TrialOfRun;
    RunMovesAway(state, constraints, trace, committed, shard, target);
    MembersPartition(state.world, committed, NO_MOVES.Added(shard, target));
  }

  /** In every trial of a run, the future bin of a shard is the bin whose filtered child list contains it. */
  lemma RunFutureBin(state: SolvingState, constraints: seq<Constraint>, trace: seq<ShardBins>,
                     committed: MovementIndex, shard: DomainId, target: DomainId, s: DomainId, bin: DomainId)
    requires TrialOfRun(state, constraints, trace, committed, shard, target)
    requires state.Valid() && s in state.world.home
    ensures var moves := [NO_MOVES, committed, NO_MOVES.Added(shard, target)];
            && (s in ConsideredMembers(state.world, moves, bin)
                <==> FirstTarget(Nexts(moves), s).GetOr(StaticBin(state.world, state.nodes, s)) == bin)
            && (s in ConsideredMembers(state.world, moves, bin)
                <==> Placed(state, committed.next[shard := target]).BinOf(s) == bin)
  {
    hide MovesAway, TrialOfRun;
    RunMovesAway(state, constraints, trace, committed, shard, target);
    RunPartition(state, constraints, trace, committed, shard, target);
    hide Represents, FirstTarget, ConsideredMembers;
    assert state.world.forest[Node(SHARD_DOMAIN, s)] in state.nodes;
    FutureBinHolds(state.world, state.nodes, committed, NO_MOVES.Added(shard, target), s, bin);
  }

  /**
   In every trial of a run, the bin load that a capacity constraint maintains by
   deltas is the one that the load balancing operator sums up from scratch.
   */
  lemma RunLoadsAgree(state: SolvingState, constraints: seq<Constraint>, trace: seq<ShardBins>,
                      committed: MovementIndex, shard: DomainId, target: DomainId, c: Constraint, bin: DomainId,
                      view: Values, values: Values, changed: seq<DomainId>, greatest: bool)
    requires TrialOfRun(state, constraints, trace, committed, shard, target)
    requires Installed(state, constraints) && c in constraints && c.spec.rule.Capacity?
    requires EvaluatedAt(state, constraints, Placed(state, committed.next[shard := target]))
    requires Node(BIN_DOMAIN, bin) in c.expressionTree.nodes
    ensures ValueOrZero(c.expressionTree.metricsMap.View(), Node(BIN_DOMAIN, bin))
         == StepValue(Extremum(0, greatest), state.world, [NO_MOVES, committed, NO_MOVES.Added(shard, target)],
                      view, values, Node(BIN_DOMAIN, bin), changed)
  {
    hide MovesAway, TrialOfRun, StepValue, NodeOk, LedgerAt, SolvingState.Valid, FaultsOf, ExpressionTree.Valid;
    RunMovesAway(state, constraints, trace, committed, shard, target);
    CapacityTree(c);
    TwoLoadsAgree(state.world, committed, NO_MOVES.Added(shard, target), view, values, bin, changed, greatest,
                  c.expressionTree.metricsMap.View());
  }

  lemma CapacityTree(c: Constraint)
    requires c.Valid() && c.spec.rule.Capacity?
    ensures c.expressionTree.op == MetricSum(AFTER) && c.expressionTree.world == c.state.world
  {
  }

  /**
   A shard is taken from a bin only after every bin with a larger weight, as an
   int32, or the same weight and a larger id, gave up.
   */
  lemma HotterBinsGaveUp(state: SolvingState, constraints: seq<Constraint>, trace: seq<ShardBins>, k: nat)
    returns (shard: DomainId, target: DomainId)
    requires IsRun(state, constraints, trace) && k < |trace| - 1
    ensures MayMove(state, trace[k], shard, target) && trace[k + 1] == trace[k][shard := target]
    ensures var specs, cfg, home := Specs(constraints), Placed(state, trace[k]), state.world.home[shard];
            forall b: DomainId :: b < state.numBins && b != home
              && (var own, other := BinWeightSum(state, specs, cfg, home), BinWeightSum(state, specs, cfg, b);
                  other > own || (other == own && b > home))
              ==> GivesUp(state, constraints, trace[k], b, WeightAt(state, constraints, trace[k]))
  {
    hide WeightAt, GivesUp, BinWeight, SeqSum;
    assert Improves(state, constraints, trace[k], trace[k + 1]);
    shard, target :| MayMove(state, trace[k], shard, target) && trace[k + 1] == trace[k][shard := target]
      && HotterGiveUp(state, constraints, trace[k], state.world.home[shard]);
    forall b {
      BinWeightIsSum(state.world, Specs(constraints), Placed(state, trace[k]), b);
    }
  }

  /** A bin's weight as the solver compares it. */
  ghost function BinWeightSum(state: SolvingState, specs: seq<ConstraintSpec>, cfg: Config, bin: DomainId): int {
    Narrow(SeqSum(specs, BinFault(state.world, cfg, bin)))
  }

  // ----- Where a run stops -----

  /** No move of the shard to another bin lowers the weight. */
  ghost predicate StuckShard(state: SolvingState, constraints: seq<Constraint>, moves: ShardBins, s: DomainId) {
    forall b :: MayMove(state, moves, s, b) ==>
        WeightAt(state, constraints, moves[s := b]) >= WeightAt(state, constraints, moves)
  }

  lemma DrawnIsAll(numBins: nat, bin: DomainId, targets: set<DomainId>)
    requires bin < numBins <= 51 && Drawn(numBins, bin, targets)
    ensures forall b: DomainId :: b < numBins && b != bin ==> b in targets
  {
    CountBelow(numBins);
    var others := Below(numBins) - {bin};
    assert others + {bin} == Below(numBins);
    assert targets <= others;
    assert others == targets + (others - targets);
  }

  /**
   With at most 51 bins, a search that stops early leaves in every bin no
   unmoved shard at all or one that cannot improve the placement anywhere.  If no
   bin has two unmoved shards, no move that the search may make is left.
   */
  lemma StopsAtOptimum(state: SolvingState, constraints: seq<Constraint>, moves: ShardBins)
    requires state.Valid() && state.numBins <= 51 && AllGiveUp(state, constraints, moves)
    ensures forall s, bin :: StillIn(state, moves, s, bin) ==>
              exists s' :: StillIn(state, moves, s', bin) && StuckShard(state, constraints, moves, s')
    ensures (forall s, s', bin :: StillIn(state, moves, s, bin) && StillIn(state, moves, s', bin) ==> s == s') ==>
              forall s, b :: MayMove(state, moves, s, b) ==>
                  WeightAt(state, constraints, moves[s := b]) >= WeightAt(state, constraints, moves)
  {
    hide WeightAt;
    forall s, bin | StillIn(state, moves, s, bin)
      ensures exists s' :: StillIn(state, moves, s', bin) && StuckShard(state, constraints, moves, s')
    {
      assert state.world.forest[Node(SHARD_DOMAIN, s)] in state.nodes;
      assert GivesUp(state, constraints, moves, bin, WeightAt(state, constraints, moves));
      var s', targets :| StillIn(state, moves, s', bin) && Drawn(state.numBins, bin, targets)
        && NoneBetter(state, constraints, moves, s', targets, WeightAt(state, constraints, moves));
      DrawnIsAll(state.numBins, bin, targets);
      assert forall b :: MayMove(state, moves, s', b) ==> b in targets;
      assert StuckShard(state, constraints, moves, s');
    }
    forall s, b | MayMove(state, moves, s, b)
      ensures StillIn(state, moves, s, state.world.home[s])
    {
    }
  }

  // ----- From-scratch objective along a run -----

  /** The second configuration has made all the moves of the first. */
  ghost predicate Later(was: Config, now: Config) {
    was.home == now.home && forall s :: s in was.moves ==> s in now.moves && now.moves[s] == was.moves[s]
  }

  lemma TouchedGrows(forest: Forest, n: Node, was: Config, now: Config)
    requires Later(was, now) && Touched(forest, n, was)
    ensures Touched(forest, n, now)
  {
    var s :| s in was.home && (Above(forest, n, was.home[s]) || (s in was.moves && Above(forest, n, was.moves[s])));
    assert s in now.home;
  }

  /** Moving more shards touches more nodes, never fewer. */
  lemma UntouchedShrinks(w: World, spec: ConstraintSpec, was: Config, now: Config)
    requires Later(was, now)
    ensures Untouched(w, spec, now) <= Untouched(w, spec, was)
  {
    hide Touched, Later;
    forall id | id in Untouched(w, spec, now)
      ensures id in Untouched(w, spec, was)
    {
      if Touched(w.forest, Node(spec.domain, id), was) {
        TouchedGrows(w.forest, Node(spec.domain, id), was, now);
      }
    }
  }

  lemma {:induction false} UnrecordedShrinks(w: World, specs: seq<ConstraintSpec>, was: Config, now: Config)
    requires Later(was, now)
    requires forall spec :: spec in specs ==> spec.rule.Fault(0) >= 0
    ensures Unrecorded(w, specs, now) <= Unrecorded(w, specs, was)
  {
    hide FaultRule.Fault, Untouched;
    if specs != [] {
      var front, last := specs[..|specs| - 1], specs[|specs| - 1];
      assert forall spec :: spec in front ==> spec in specs;
      assert last in specs;
      UnrecordedShrinks(w, front, was, now);
      UntouchedShrinks(w, last, was, now);
      SubsetCount(Untouched(w, last, now), Untouched(w, last, was));
      Scale(last.rule.Fault(0), |Untouched(w, last, now)|, |Untouched(w, last, was)|);
    }
  }

  ghost function ObjectiveAt(state: SolvingState, constraints: seq<Constraint>, moves: ShardBins): int {
    Objective(state.world, Specs(constraints), Placed(state, moves))
  }

  /** Every committed move strictly lowers the from-scratch objective, unless an empty node has a negative fault. */
  lemma ObjectiveDescends(state: SolvingState, constraints: seq<Constraint>, trace: seq<ShardBins>, k: nat)
    requires IsRun(state, constraints, trace) && k < |trace| - 1
    requires forall c :: c in constraints ==> c.spec.rule.Fault(0) >= 0
    ensures ObjectiveAt(state, constraints, trace[k + 1]) < ObjectiveAt(state, constraints, trace[k])
  {
    var was, now, specs := Placed(state, trace[k]), Placed(state, trace[k + 1]), Specs(constraints);
    assert Improves(state, constraints, trace[k], trace[k + 1]);
    hide TotalWeight, Unrecorded, Objective, FaultRule.Fault;
    forall spec | spec in specs
      ensures spec.rule.Fault(0) >= 0
    {
      var i :| 0 <= i < |specs| && specs[i] == spec;
      assert constraints[i] in constraints;
    }
    UnrecordedShrinks(state.world, specs, was, now);
    LedgerVersusObjective(state.world, specs, was);
    LedgerVersusObjective(state.world, specs, now);
  }

  /** A capacity fault that fits an int is not negative when the fault weight is not. */
  predicate NonNegativeFaults(rule: FaultRule, bound: nat) {
    match rule
    case Capacity(capacity, faultWeight) => faultWeight >= 0 && (bound - capacity) * faultWeight < TWO_31
    case Drain(faultWeight) => faultWeight >= 0
  }

  lemma FaultNotNegative(rule: FaultRule, bound: nat, val: int)
    requires NonNegativeFaults(rule, bound) && 0 <= val <= bound
    ensures rule.Fault(val) >= 0
  {
    match rule {
      case Capacity(capacity, faultWeight) =>
        if val > capacity {
          Scale(faultWeight, val - capacity, bound - capacity);
          Scale(faultWeight, 0, val - capacity);
          NarrowExact((val - capacity) * faultWeight);
        }
      case Drain(faultWeight) =>
        Scale(faultWeight, 0, val);
    }
  }

  /** The weight that a trial reads is the from-scratch objective, up to the faults of nodes never touched. */
  lemma TrialWeightIsObjective(state: SolvingState, constraints: seq<Constraint>, moves: ShardBins)
    ensures WeightAt(state, constraints, moves) + Unrecorded(state.world, Specs(constraints), Placed(state, moves))
         == ObjectiveAt(state, constraints, moves)
    ensures Ordinary(Specs(constraints)) ==>
              WeightAt(state, constraints, moves) == ObjectiveAt(state, constraints, moves)
  {
    LedgerVersusObjective(state.world, Specs(constraints), Placed(state, moves));
    if Ordinary(Specs(constraints)) {
      OrdinaryObjective(state.world, Specs(constraints), Placed(state, moves));
    }
  }

  /** The loads that the constraint looks at are not negative and add up to at most the bound. */
  ghost predicate BoundedLoads(w: World, spec: ConstraintSpec, bound: nat) {
    && bound < TWO_31
    && (forall s :: s in w.home ==> 0 <= ShardWeight(spec.Op(), w, s))
    && SumOver(w.home.Keys, WeightOf(spec.Op(), w)) <= bound
  }

  lemma SmallFault(rule: FaultRule, bound: nat, load: int)
    requires NonNegativeFaults(rule, bound) && 0 <= load <= bound
    ensures rule.Fault(load) == PlainFault(rule, load)
  {
    hide Narrow;
    FaultIsPlain(rule, load);
    if rule.Capacity? && load > rule.capacity {
      Scale(rule.faultWeight, load - rule.capacity, bound - rule.capacity);
      Scale(rule.faultWeight, 0, load - rule.capacity);
      NarrowExact((load - rule.capacity) * rule.faultWeight);
    } else if rule.Capacity? {
      NarrowExact(0);
    }
  }

  lemma PlainFaultOfNode(w: World, spec: ConstraintSpec, cfg: Config, bound: nat, id: DomainId)
    requires cfg.home == w.home && BoundedLoads(w, spec, bound) && NonNegativeFaults(spec.rule, bound)
    ensures NodeFault(w, spec, cfg)(id) == PlainNodeFault(w, spec, cfg)(id)
  {
    var n := Node(spec.domain, id);
    hide Load, Touched, ShardsBelow, Narrow, FaultRule.Fault, PlainFault, NonNegativeFaults;
    LoadNeverTruncated(w.forest, WeightOf(spec.Op(), w), n, cfg);
    LoadIsPlain(spec.Op(), w, n, cfg);
    SmallFault(spec.rule, bound, Load(w.forest, WeightOf(spec.Op(), w), n, cfg));
  }

  /** With bounded loads and faults no conversion to machine integers changes anything. */
  lemma {:induction false} NothingNarrowed(w: World, specs: seq<ConstraintSpec>, cfg: Config, bound: nat)
    requires cfg.home == w.home
    requires forall spec :: spec in specs ==> BoundedLoads(w, spec, bound) && NonNegativeFaults(spec.rule, bound)
    ensures Objective(w, specs, cfg) == PlainObjective(w, specs, cfg)
  {
    if specs != [] {
      var front, last := specs[..|specs| - 1], specs[|specs| - 1];
      assert forall spec :: spec in front ==> spec in specs;
      assert last in specs;
      NothingNarrowed(w, front, cfg, bound);
      hide BoundedLoads, NonNegativeFaults, NodeFault, PlainNodeFault;
      forall id | id in last.scope
        ensures NodeFault(w, last, cfg)(id) == PlainNodeFault(w, last, cfg)(id)
      {
        PlainFaultOfNode(w, last, cfg, bound, id);
      }
      SumExt(last.scope, NodeFault(w, last, cfg), PlainNodeFault(w, last, cfg));
    }
  }

  /**
   Then the weight of a trial is the sum of the plain faults over the exact
   loads of all scoped nodes, up to the faults of nodes never touched.
   */
  lemma TrialWeightIsPlain(state: SolvingState, constraints: seq<Constraint>, moves: ShardBins, bound: nat)
    requires forall spec :: spec in Specs(constraints) ==>
               BoundedLoads(state.world, spec, bound) && NonNegativeFaults(spec.rule, bound)
    ensures WeightAt(state, constraints, moves) + Unrecorded(state.world, Specs(constraints), Placed(state, moves))
         == PlainObjective(state.world, Specs(constraints), Placed(state, moves))
    ensures Ordinary(Specs(constraints)) ==>
              WeightAt(state, constraints, moves)
                  == PlainObjective(state.world, Specs(constraints), Placed(state, moves))
  {
    hide BoundedLoads, NonNegativeFaults, WeightAt, Unrecorded, Objective, PlainObjective, Ordinary;
    TrialWeightIsObjective(state, constraints, moves);
    NothingNarrowed(state.world, Specs(constraints), Placed(state, moves), bound);
  }

  lemma ConstraintWeightNotNegative(w: World, spec: ConstraintSpec, cfg: Config, bound: nat)
    requires cfg.home == w.home && BoundedLoads(w, spec, bound) && NonNegativeFaults(spec.rule, bound)
    ensures ConstraintWeight(w, spec, cfg) >= 0
  {
    var faults := FaultsOf(w, spec, cfg);
    forall id | id in faults
      ensures faults[id] >= 0
    {
      var n := Node(spec.domain, id);
      LoadNeverTruncated(w.forest, WeightOf(spec.Op(), w), n, cfg);
      FaultNotNegative(spec.rule, bound, NodeValue(spec.Op(), w, n, cfg));
    }
    hide FaultsOf, NonNegativeFaults, BoundedLoads;
    var nothing := (id: DomainId) => 0;
    SumConstant(faults.Keys, nothing, 0);
    SumMono(faults.Keys, nothing, (id: DomainId) => ValueOrZero(faults, id));
  }

  lemma {:induction false} TotalWeightNotNegative(w: World, specs: seq<ConstraintSpec>, cfg: Config, bound: nat)
    requires cfg.home == w.home
    requires forall spec :: spec in specs ==> BoundedLoads(w, spec, bound) && NonNegativeFaults(spec.rule, bound)
    ensures TotalWeight(w, specs, cfg) >= 0
  {
    hide BoundedLoads, NonNegativeFaults, ConstraintWeight;
    if specs != [] {
      var front, last := specs[..|specs| - 1], specs[|specs| - 1];
      assert forall spec :: spec in front ==> spec in specs;
      assert last in specs;
      TotalWeightNotNegative(w, front, cfg, bound);
      ConstraintWeightNotNegative(w, last, cfg, bound);
    }
  }

  /** With faults that cannot be negative, a run makes at most as many moves as the initial weight. */
  lemma MovesBoundedByWeight(state: SolvingState, constraints: seq<Constraint>, trace: seq<ShardBins>, bound: nat)
    requires IsRun(state, constraints, trace)
    requires forall spec :: spec in Specs(constraints) ==>
               BoundedLoads(state.world, spec, bound) && NonNegativeFaults(spec.rule, bound)
    ensures |trace| - 1 <= WeightAt(state, constraints, map[])
  {
    hide BoundedLoads, NonNegativeFaults;
    RunIsDescent(state, constraints, trace);
    TotalWeightNotNegative(state.world, Specs(constraints), Placed(state, trace[|trace| - 1]), bound);
  }
}
