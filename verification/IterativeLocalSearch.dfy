/** The local search: try one shard in another bin, keep the move only if the total weight drops. */
module LocalSearch {
  import opened Basics
  import opened Sums
  import opened Placement
  import opened Movements
  import opened MappingTree
  import opened Committable
  import opened Evaluation
  import opened Trials
  import opened State
  import opened Faults
  import opened Constraints

  // ----- Several constraints over one state -----

  ghost function Specs(constraints: seq<Constraint>): seq<ConstraintSpec> {
    seq(|constraints|, i requires 0 <= i < |constraints| => constraints[i].spec)
  }

  /** The configuration after the given committed moves. */
  ghost function Placed(state: SolvingState, moves: ShardBins): Config {
    Config(state.world.home, moves)
  }

  ghost function WeightAt(state: SolvingState, constraints: seq<Constraint>, moves: ShardBins): int {
    TotalWeight(state.world, Specs(constraints), Placed(state, moves))
  }

  /** The constraints belong to the state and share no object except its ledger. */
  ghost predicate Installed(state: SolvingState, constraints: seq<Constraint>)
    reads state.assignmentTree, set c | c in constraints :: c.expressionTree.assignmentTree
  {
    && state.Valid()
    && (forall c :: c in constraints ==>
        c.state == state && c.expressionTree.state == state && c.Valid() && c.domainFaultMap != state.binWeightMap)
    && (forall i, j :: 0 <= i < j < |constraints| ==> Separate(constraints[i], constraints[j]))
  }

  ghost predicate Separate(c: Constraint, c': Constraint) {
    c.domainFaultMap != c'.domainFaultMap && c.expressionTree.metricsMap != c'.expressionTree.metricsMap
  }

  ghost function Overlays(state: SolvingState, constraints: seq<Constraint>): set<object> {
    {state.binWeightMap, state.totalWeight}
    + (set c | c in constraints :: c.domainFaultMap) + (set c | c in constraints :: c.expressionTree.metricsMap)
  }

  /** Trees are not overlays. */
  lemma OverlaysApart(state: SolvingState, constraints: seq<Constraint>)
    ensures state.assignmentTree !in Overlays(state, constraints)
    ensures forall c :: c in constraints ==> c.expressionTree.assignmentTree !in Overlays(state, constraints)
    ensures forall o :: o in Overlays(state, constraints) ==> allocated(o)
    ensures state.binWeightMap in Overlays(state, constraints) && state.totalWeight in Overlays(state, constraints)
  {
  }

  /** Neither are movement maps. */
  lemma Apart(state: SolvingState, constraints: seq<Constraint>, moves: MovementMap)
    ensures moves !in Overlays(state, constraints)
    ensures state.assignmentTree !in Overlays(state, constraints)
    ensures forall c :: c in constraints ==> c.expressionTree.assignmentTree !in Overlays(state, constraints)
    ensures forall o :: o in Overlays(state, constraints) ==> allocated(o)
    ensures state.binWeightMap in Overlays(state, constraints) && state.totalWeight in Overlays(state, constraints)
  {
  }

  /** The committed layers of all constraints and of the ledger belong to the configuration. */
  ghost predicate CommittedAt(state: SolvingState, constraints: seq<Constraint>, cfg: Config)
    reads Overlays(state, constraints)
  {
    && (forall c :: c in constraints ==> c.Ready(cfg))
    && LedgerAt(state, Specs(constraints), cfg, state.totalWeight.committedVal.GetOr(0),
        state.binWeightMap.committedMap)
  }

  /** What is read through the canary layers belongs to the configuration. */
  ghost predicate EvaluatedAt(state: SolvingState, constraints: seq<Constraint>, cfg: Config)
    reads Overlays(state, constraints)
  {
    && (forall c :: c in constraints ==> c.Evaluated(cfg))
    && LedgerAt(state, Specs(constraints), cfg, state.Total(), state.binWeightMap.View())
  }

  /** Ledger conservation: the total and every bin weight are the sums of the fault entries. */
  ghost predicate LedgerAt(state: SolvingState, specs: seq<ConstraintSpec>, cfg: Config, total: int,
                           bins: map<DomainId, int>)
  {
    && total == TotalWeight(state.world, specs, cfg)
    && forall b :: ValueOrZero(bins, b) == BinWeight(state.world, specs, cfg, b)
  }

  ghost predicate NoCanary(state: SolvingState, constraints: seq<Constraint>)
    reads Overlays(state, constraints)
  {
    && state.binWeightMap.canaryMap == map[] && state.totalWeight.canaryVal == None
    && forall c :: c in constraints ==> EmptyOverlay(c)
  }

  class IterativeLocalSearch {
    const maxIterations: nat

    constructor (maxIterations: nat := 50000)
      ensures this.maxIterations == maxIterations
    {
      this.maxIterations := maxIterations;
    }

    /** Lets every constraint evaluate the trial. */
    method UpdateWeights(state: SolvingState, constraints: seq<Constraint>, committedMoves: MovementMap,
                         canaryMoves: MovementMap)
      requires Installed(state, constraints)
      requires CommittedAt(state, constraints, Placed(state, committedMoves.shardToNextBinMap))
      requires TrialMoves(state.world, committedMoves.shardToNextBinMap, canaryMoves.shardToNextBinMap)
      requires state.binWeightMap.canaryMap == map[] && state.totalWeight.canaryVal == None
      modifies Overlays(state, constraints)
      ensures CommittedAt(state, constraints, Placed(state, committedMoves.shardToNextBinMap))
      ensures EvaluatedAt(state, constraints,
                          Placed(state, committedMoves.shardToNextBinMap + canaryMoves.shardToNextBinMap))
    {
      hide Installed, TrialMoves, Midway, CommittedAt, EvaluatedAt, LedgerAt, Overlays;
      Apart(state, constraints, committedMoves);
      Apart(state, constraints, canaryMoves);
      ghost var before := Placed(state, committedMoves.shardToNextBinMap);
      ghost var after := Placed(state, committedMoves.shardToNextBinMap + canaryMoves.shardToNextBinMap);
      CommittedAtParts(state, constraints, before);
      MidwayStart(state, constraints, before, after);
      var i := 0;
      while i < |constraints|
        invariant 0 <= i <= |constraints|
        invariant Installed(state, constraints) && Midway(state, constraints, before, after, i)
        invariant state.totalWeight.committedVal == old(state.totalWeight.committedVal)
        invariant state.binWeightMap.committedMap == old(state.binWeightMap.committedMap)
      {
        CanaryOne(state, constraints, committedMoves, canaryMoves, i);
        i := i + 1;
      }
      MidwayEnd(state, constraints, before, after);
      CommittedAtParts(state, constraints, before);
    }

    method CanaryOne(state: SolvingState, constraints: seq<Constraint>, committedMoves: MovementMap,
                     canaryMoves: MovementMap, i: nat)
      requires i < |constraints| && Installed(state, constraints)
      requires TrialMoves(state.world, committedMoves.shardToNextBinMap, canaryMoves.shardToNextBinMap)
      requires Midway(state, constraints, Placed(state, committedMoves.shardToNextBinMap),
                      Placed(state, committedMoves.shardToNextBinMap + canaryMoves.shardToNextBinMap), i)
      modifies Overlays(state, constraints)
      ensures Midway(state, constraints, Placed(state, committedMoves.shardToNextBinMap),
                     Placed(state, committedMoves.shardToNextBinMap + canaryMoves.shardToNextBinMap), i + 1)
      ensures state.totalWeight.committedVal == old(state.totalWeight.committedVal)
      ensures state.binWeightMap.committedMap == old(state.binWeightMap.committedMap)
    {
      hide SolvingState.Valid, TrialMoves, MixedTotal, MixedBin, FaultsOf, Constraint.Ready, Constraint.Evaluated;
      hide ExpressionTree.Valid, Constraint.Valid, BinPart;
      ghost var before := Placed(state, committedMoves.shardToNextBinMap);
      ghost var after := Placed(state, committedMoves.shardToNextBinMap + canaryMoves.shardToNextBinMap);
      MixedStep(state.world, Specs(constraints), before, after, i);
      var c := constraints[i];
      assert c in constraints;
      forall j | 0 <= j < |constraints| && j != i
        ensures Separate(constraints[j], c) && constraints[j].domainFaultMap != state.binWeightMap
      {
        assert constraints[j] in constraints;
      }
      c.CanaryMoves(committedMoves, canaryMoves);
      forall j | 0 <= j < |constraints|
        ensures constraints[j].Ready(before)
        ensures j <= i ==> constraints[j].Evaluated(after)
      {
      }
    }

    /** Keeps the evaluated move in every constraint; the shared ledger is committed again and again. */
    method CommitAll(state: SolvingState, constraints: seq<Constraint>, ghost cfg: Config)
      requires Installed(state, constraints) && constraints != [] && EvaluatedAt(state, constraints, cfg)
      modifies Overlays(state, constraints)
      ensures CommittedAt(state, constraints, cfg) && NoCanary(state, constraints)
    {
      hide Installed, CommitMidway, EvaluatedAt, CommittedAt, NoCanary, Overlays;
      OverlaysApart(state, constraints);
      CommitStart(state, constraints, cfg);
      var i := 0;
      while i < |constraints|
        invariant 0 <= i <= |constraints|
        invariant Installed(state, constraints) && CommitMidway(state, constraints, cfg, i)
      {
        CommitOne(state, constraints, cfg, i);
        i := i + 1;
      }
      CommitEnd(state, constraints, cfg);
    }

    method CommitOne(state: SolvingState, constraints: seq<Constraint>, ghost cfg: Config, i: nat)
      requires i < |constraints| && Installed(state, constraints) && CommitMidway(state, constraints, cfg, i)
      modifies Overlays(state, constraints)
      ensures CommitMidway(state, constraints, cfg, i + 1)
    {
      hide SolvingState.Valid, Constraint.Ready, Constraint.Evaluated, ExpressionTree.Valid, Constraint.Valid, Flat;
      hide LedgerAt;
      var c := constraints[i];
      assert c in constraints;
      forall j | 0 <= j < |constraints| && j != i
        ensures Separate(constraints[j], c) && constraints[j].domainFaultMap != state.binWeightMap
      {
        assert constraints[j] in constraints;
      }
      c.Commit(cfg);
      forall j | 0 <= j < |constraints|
        ensures j <= i ==> constraints[j].Ready(cfg) && EmptyOverlay(constraints[j])
        ensures j > i ==> constraints[j].Evaluated(cfg)
      {
      }
    }

    /**
     One trial.  The weight is a function of the committed moves and of the
     candidate alone: nothing that earlier trials left behind can influence it.
     */
    method EvaluateMove(state: SolvingState, constraints: seq<Constraint>, committedMoves: MovementMap,
                        canariedMoves: MovementMap,
                        shard: DomainId, nextBin: DomainId)
      returns (newWeight: int)
      requires Installed(state, constraints) && committedMoves != canariedMoves
      requires CommittedAt(state, constraints, Placed(state, committedMoves.shardToNextBinMap))
      requires shard in state.world.home && shard !in committedMoves.shardToNextBinMap
                 && nextBin != state.world.home[shard]
      modifies Overlays(state, constraints), canariedMoves
      ensures canariedMoves.Index() == NO_MOVES.Added(shard, nextBin)
      ensures CommittedAt(state, constraints, Placed(state, committedMoves.shardToNextBinMap))
      ensures EvaluatedAt(state, constraints, Placed(state, committedMoves.shardToNextBinMap[shard := nextBin]))
      ensures newWeight == WeightAt(state, constraints, committedMoves.shardToNextBinMap[shard := nextBin])
    {
      hide Installed, CommittedAt, EvaluatedAt, WeightAt, TrialMoves, Overlays;
      Apart(state, constraints, committedMoves);
      Apart(state, constraints, canariedMoves);
      canariedMoves.ClearMovements();
      ClearLedger(state, constraints, Placed(state, committedMoves.shardToNextBinMap));
      canariedMoves.AddMovement(shard, nextBin);
      SingleTrial(state.world, committedMoves.shardToNextBinMap, shard, nextBin);
      UpdateWeights(state, constraints, committedMoves, canariedMoves);
      newWeight := state.Total();
      EvaluatedTotal(state, constraints, committedMoves.shardToNextBinMap[shard := nextBin]);
    }

    method ClearLedger(state: SolvingState, constraints: seq<Constraint>, ghost cfg: Config)
      requires Installed(state, constraints) && CommittedAt(state, constraints, cfg)
      modifies state.binWeightMap, state.totalWeight
      ensures Installed(state, constraints) && CommittedAt(state, constraints, cfg)
      ensures state.binWeightMap.canaryMap == map[] && state.totalWeight.canaryVal == None
    {
      hide Constraint.Ready, LedgerAt, SolvingState.Valid, Constraint.Valid;
      state.binWeightMap.Clear();
      state.totalWeight.Clear();
    }

    /** Shards whose home is the bin and that no committed move has taken away. */
    method ShardsStillIn(state: SolvingState, committedMoves: MovementMap, binId: DomainId)
      returns (shardsInBin: seq<DomainId>)
      requires state.Valid()
      ensures forall s :: s in shardsInBin <==> StillIn(state, committedMoves.shardToNextBinMap, s, binId)
    {
      var shards := state.assignmentTree.GetChildren(Node(BIN_DOMAIN, binId));
      StaticHomes(state, binId);
      shardsInBin := [];
      var i := 0;
      while i < |shards|
        invariant 0 <= i <= |shards|
        invariant forall s :: s in shardsInBin <==> s in shards[..i] && s !in committedMoves.shardToNextBinMap
      {
        var nextBin := committedMoves.GetNextBin(shards[i]);
        if nextBin.None? {
          shardsInBin := shardsInBin + [shards[i]];
        }
        i := i + 1;
      }
      assert shards[..i] == shards;
    }

    /** Distinct bins other than the given one, drawn at random: all of them, or 50 if there are more. */
    method DrawTargets(numBins: nat, binId: DomainId) returns (binSet: set<DomainId>)
      requires binId < numBins
      ensures Drawn(numBins, binId, binSet)
    {
      binSet := {};
      while |binSet| < numBins - 1 && |binSet| < 50
        invariant forall b :: b in binSet ==> b < numBins && b != binId
        invariant |binSet| <= numBins - 1 && |binSet| <= 50
        decreases numBins - |binSet|
      {
        FreshBin(numBins, binId, binSet);
        var nextBinId: DomainId :| nextBinId < numBins && nextBinId != binId && nextBinId !in binSet;
        binSet := binSet + {nextBinId};
      }
    }

    /** Tries one shard in the given bins, in any order, until the weight drops. */
    method TryTargets(state: SolvingState, committedMoves: MovementMap, canariedMoves: MovementMap,
                      constraints: seq<Constraint>,
                      shard: DomainId, targets: set<DomainId>, currentWeight: int)
      returns (found: bool, newWeight: int, ghost target: DomainId)
      requires Installed(state, constraints) && committedMoves != canariedMoves
      requires CommittedAt(state, constraints, Placed(state, committedMoves.shardToNextBinMap))
      requires forall b :: b in targets ==> MayMove(state, committedMoves.shardToNextBinMap, shard, b)
      modifies Overlays(state, constraints), canariedMoves
      ensures CommittedAt(state, constraints, Placed(state, committedMoves.shardToNextBinMap))
      ensures found ==>
                && target in targets && canariedMoves.Index() == NO_MOVES.Added(shard, target)
                && EvaluatedAt(state, constraints, Placed(state, committedMoves.shardToNextBinMap[shard := target]))
                && newWeight == WeightAt(state, constraints, committedMoves.shardToNextBinMap[shard := target])
                && newWeight < currentWeight
      ensures !found ==>
                newWeight == currentWeight
                    && NoneBetter(state, constraints, committedMoves.shardToNextBinMap, shard, targets, currentWeight)
    {
      hide Installed, CommittedAt, EvaluatedAt, WeightAt, Overlays;
      Apart(state, constraints, committedMoves);
      ghost var moves := committedMoves.shardToNextBinMap;
      found, newWeight, target := false, currentWeight, 0;
      var binSet := targets;
      while binSet != {}
        invariant binSet <= targets && !found && newWeight == currentWeight
        invariant committedMoves.shardToNextBinMap == moves
        invariant forall b :: b in targets && b !in binSet ==>
                    WeightAt(state, constraints, moves[shard := b]) >= currentWeight
        invariant Installed(state, constraints)
        invariant CommittedAt(state, constraints, Placed(state, committedMoves.shardToNextBinMap))
      {
        var nextBinId :| nextBinId in binSet;
        binSet := binSet - {nextBinId};
        assert MayMove(state, committedMoves.shardToNextBinMap, shard, nextBinId);
        var weight := EvaluateMove(state, constraints, committedMoves, canariedMoves, shard, nextBinId);
        if weight < currentWeight {
          found, newWeight, target := true, weight, nextBinId;
          return;
        }
      }
    }

    /**
     Up to ten random shards of the bin, each tried in random other bins.  A bin
     gives up only if no shard is left in it or some draw was tried in vain.
     */
    method GetMovementForBin(state: SolvingState, committedMoves: MovementMap, constraints: seq<Constraint>,
                             binId: DomainId,
                             currentWeight: int)
      returns (movement: Option<MovementMap>, newWeight: int, ghost shard: DomainId, ghost target: DomainId)
      requires Installed(state, constraints) && binId < state.numBins
      requires CommittedAt(state, constraints, Placed(state, committedMoves.shardToNextBinMap))
      modifies Overlays(state, constraints)
      ensures CommittedAt(state, constraints, Placed(state, committedMoves.shardToNextBinMap))
      ensures movement.None? ==>
                newWeight == currentWeight
                    && GivesUp(state, constraints, committedMoves.shardToNextBinMap, binId, currentWeight)
      ensures movement.Some? ==> fresh(movement.value) && movement.value.Index() == NO_MOVES.Added(shard, target)
      ensures movement.Some? ==>
                MayMove(state, committedMoves.shardToNextBinMap, shard, target) && state.world.home[shard] == binId
      ensures movement.Some? ==>
                && EvaluatedAt(state, constraints, Placed(state, committedMoves.shardToNextBinMap[shard := target]))
                && newWeight == WeightAt(state, constraints, committedMoves.shardToNextBinMap[shard := target])
                && newWeight < currentWeight
    {
      hide Installed, CommittedAt, EvaluatedAt, WeightAt, SolvingState.Valid, TriedInVain, AllInVain;
      InstalledState(state, constraints);
      movement, newWeight, shard, target := None, currentWeight, 0, 0;
      var canariedMoves := new MovementMap();
      var shardsInBin := ShardsStillIn(state, committedMoves, binId);
      if |shardsInBin| == 0 {
        assert forall s :: StillIn(state, committedMoves.shardToNextBinMap, s, binId) ==> s in shardsInBin;
        return;
      }
      var found;
      ghost var draws;
      found, newWeight, shard, target, draws :=
          TryShards(state, committedMoves, canariedMoves, constraints, binId, shardsInBin, currentWeight);
      if found {
        movement := Some(canariedMoves);
      } else {
        SomeInVain(state, constraints, committedMoves.shardToNextBinMap, binId, currentWeight, draws);
      }
    }

    /** Ten rounds of a random shard and random targets. */
    method TryShards(state: SolvingState, committedMoves: MovementMap, canariedMoves: MovementMap,
                     constraints: seq<Constraint>,
                     binId: DomainId, shardsInBin: seq<DomainId>, currentWeight: int)
      returns (found: bool, newWeight: int, ghost shard: DomainId, ghost target: DomainId, ghost draws: seq<Draw>)
      requires Installed(state, constraints) && binId < state.numBins && committedMoves != canariedMoves
                 && shardsInBin != []
      requires forall s :: s in shardsInBin ==> StillIn(state, committedMoves.shardToNextBinMap, s, binId)
      requires CommittedAt(state, constraints, Placed(state, committedMoves.shardToNextBinMap))
      modifies Overlays(state, constraints), canariedMoves
      ensures CommittedAt(state, constraints, Placed(state, committedMoves.shardToNextBinMap))
      ensures found ==>
                && MayMove(state, committedMoves.shardToNextBinMap, shard, target) && state.world.home[shard] == binId
                && canariedMoves.Index() == NO_MOVES.Added(shard, target)
                && EvaluatedAt(state, constraints, Placed(state, committedMoves.shardToNextBinMap[shard := target]))
                && newWeight == WeightAt(state, constraints, committedMoves.shardToNextBinMap[shard := target])
                && newWeight < currentWeight
      ensures !found ==>
                && newWeight == currentWeight && |draws| == 10
                && AllInVain(state, constraints, committedMoves.shardToNextBinMap, binId, currentWeight, draws)
    {
      hide Installed, CommittedAt, EvaluatedAt, WeightAt, Overlays, NoneBetter, AllInVain;
      Apart(state, constraints, committedMoves);
      found, newWeight, shard, target, draws := false, currentWeight, 0, 0, [];
      NoDraws(state, constraints, committedMoves.shardToNextBinMap, binId, currentWeight);
      var iter := 0;
      while iter < 10
        invariant 0 <= iter <= 10 && !found && newWeight == currentWeight
        invariant committedMoves.shardToNextBinMap == old(committedMoves.shardToNextBinMap)
        invariant |draws| == iter
        invariant AllInVain(state, constraints, committedMoves.shardToNextBinMap, binId, currentWeight, draws)
        invariant Installed(state, constraints)
        invariant CommittedAt(state, constraints, Placed(state, committedMoves.shardToNextBinMap))
      {
        var pick :| 0 <= pick < |shardsInBin|;
        assert shardsInBin[pick] in shardsInBin;
        shard := shardsInBin[pick];
        var binSet := DrawTargets(state.numBins, binId);
        found, newWeight, target :=
            TryTargets(state, committedMoves, canariedMoves, constraints, shardsInBin[pick], binSet, currentWeight);
        if found {
          return;
        }
        AnotherDraw(state, constraints, committedMoves.shardToNextBinMap, binId, currentWeight, draws,
            Draw(shard, binSet));
        draws := draws + [Draw(shard, binSet)];
        iter := iter + 1;
      }
    }

    /** The bins with their weights as int32, the hottest first. */
    method HottestFirst(state: SolvingState) returns (binWeights: seq<WeightedBin>)
      ensures Sorted(binWeights)
      ensures multiset(binWeights) == multiset(AllBins(state, state.numBins))
      ensures forall i, j :: 0 <= i < j < |binWeights| ==>
                binWeights[i].weight > binWeights[j].weight
                || (binWeights[i].weight == binWeights[j].weight && binWeights[i].bin > binWeights[j].bin)
    {
      binWeights := [];
      var binId := 0;
      while binId < state.numBins
        invariant 0 <= binId <= state.numBins
        invariant Sorted(binWeights) && multiset(binWeights) == multiset(AllBins(state, binId))
      {
        var entry := WeightedBin(Narrow(state.BinTotal(binId)), binId);
        assert AllBins(state, binId + 1) == AllBins(state, binId) + [entry];
        InsertSorts(binWeights, entry);
        InsertKeeps(binWeights, entry);
        binWeights := Insert(binWeights, entry);
        binId := binId + 1;
      }
      EachBinOnce(state, binWeights);
    }

    /** Asks the bins in the given order until one yields a movement. */
    method FindMove(state: SolvingState, committedMoves: MovementMap, constraints: seq<Constraint>,
                    order: seq<WeightedBin>,
                    currentWeight: int)
      returns (movement: Option<MovementMap>, newWeight: int, ghost shard: DomainId, ghost target: DomainId,
          ghost asked: nat)
      requires Installed(state, constraints)
      requires forall e :: e in order ==> e.bin < state.numBins
      requires CommittedAt(state, constraints, Placed(state, committedMoves.shardToNextBinMap))
      modifies Overlays(state, constraints)
      ensures CommittedAt(state, constraints, Placed(state, committedMoves.shardToNextBinMap))
      ensures movement.None? ==> newWeight == currentWeight && asked == |order|
      ensures asked <= |order| && forall j :: 0 <= j < asked ==>
                GivesUp(state, constraints, committedMoves.shardToNextBinMap, order[j].bin, currentWeight)
      ensures movement.Some? ==> fresh(movement.value) && movement.value.Index() == NO_MOVES.Added(shard, target)
      ensures movement.Some? ==>
                && MayMove(state, committedMoves.shardToNextBinMap, shard, target)
                && asked < |order| && state.world.home[shard] == order[asked].bin
      ensures movement.Some? ==>
                && EvaluatedAt(state, constraints, Placed(state, committedMoves.shardToNextBinMap[shard := target]))
                && newWeight == WeightAt(state, constraints, committedMoves.shardToNextBinMap[shard := target])
                && newWeight < currentWeight
    {
      hide Installed, CommittedAt, EvaluatedAt, WeightAt, Overlays, GivesUp;
      Apart(state, constraints, committedMoves);
      movement, newWeight, shard, target, asked := None, currentWeight, 0, 0, 0;
      var i := 0;
      while i < |order|
        invariant 0 <= i <= |order| && movement.None? && newWeight == currentWeight && asked == i
        invariant forall j :: 0 <= j < i ==>
                    GivesUp(state, constraints, committedMoves.shardToNextBinMap, order[j].bin, currentWeight)
        invariant Installed(state, constraints)
        invariant CommittedAt(state, constraints, Placed(state, committedMoves.shardToNextBinMap))
      {
        assert order[i] in order;
        movement, newWeight, shard, target :=
            GetMovementForBin(state, committedMoves, constraints, order[i].bin, currentWeight);
        if movement.Some? {
          return;
        }
        i := i + 1;
        asked := i;
      }
    }

    /** Adds the accepted move to the committed ones. */
    method AcceptMove(committedMoves: MovementMap, movement: MovementMap, ghost shard: DomainId, ghost target: DomainId)
      requires movement != committedMoves && movement.Index() == NO_MOVES.Added(shard, target)
      requires committedMoves.Index().Inverse() && shard !in committedMoves.shardToNextBinMap
      modifies committedMoves
      ensures committedMoves.Index().Inverse()
      ensures committedMoves.shardToNextBinMap == old(committedMoves.shardToNextBinMap)[shard := target]
    {
      hide MovementIndex.Inverse, Merged;
      ghost var was, added := committedMoves.Index(), movement.Index();
      committedMoves.AddMovements(movement);
      MergedMove(was, added, shard, target, committedMoves.Index());
    }

    /** One iteration: find a move of the hottest bin that has one, add it to the committed ones and commit. */
    method Iterate(state: SolvingState, constraints: seq<Constraint>, committedMoves: MovementMap, currentWeight: int,
                   ghost trace: seq<ShardBins>)
      returns (hasFoundMove: bool, newWeight: int, ghost longer: seq<ShardBins>)
      requires Installed(state, constraints)
      requires AtHead(state, constraints, committedMoves, currentWeight, trace)
      modifies Overlays(state, constraints), committedMoves
      ensures hasFoundMove ==> |longer| == |trace| + 1 && AtHead(state, constraints, committedMoves, newWeight, longer)
      ensures !hasFoundMove ==>
                && longer == trace && committedMoves.Index() == old(committedMoves.Index())
                && AllGiveUp(state, constraints, committedMoves.shardToNextBinMap)
                && CommittedAt(state, constraints, Placed(state, committedMoves.shardToNextBinMap))
    {
      hide Installed, CommittedAt, EvaluatedAt, NoCanary, WeightAt, MovementIndex.Inverse, IsRun, SolvingState.Total;
      hide SolvingState.BinTotal, AllBins, Sorted, Overlays, GivesUp, InHeatOrder, HotterGiveUp, AllGiveUp;
      Apart(state, constraints, committedMoves);
      longer := trace;
      ghost var moves := committedMoves.shardToNextBinMap;
      var order := HottestFirst(state);
      OrderByHeat(state, constraints, moves, order);
      var movement;
      ghost var shard, target, asked;
      movement, newWeight, shard, target, asked := FindMove(state, committedMoves, constraints, order, currentWeight);
      AskedInOrder(state, constraints, moves, order, asked);
      hasFoundMove := movement.Some?;
      if hasFoundMove {
        longer := KeepMove(state, constraints, committedMoves, movement.value, shard, target, newWeight, trace);
      }
    }

    /** Accepts an evaluated improving move and commits it everywhere. */
    method KeepMove(state: SolvingState, constraints: seq<Constraint>, committedMoves: MovementMap,
                    movement: MovementMap,
                    ghost shard: DomainId, ghost target: DomainId, ghost newWeight: int, ghost trace: seq<ShardBins>)
      returns (ghost longer: seq<ShardBins>)
      requires Installed(state, constraints) && movement != committedMoves
      requires IsRun(state, constraints, trace) && trace[|trace| - 1] == committedMoves.shardToNextBinMap
      requires committedMoves.Index().Inverse() && movement.Index() == NO_MOVES.Added(shard, target)
      requires MayMove(state, committedMoves.shardToNextBinMap, shard, target)
      requires EvaluatedAt(state, constraints, Placed(state, committedMoves.shardToNextBinMap[shard := target]))
      requires newWeight == WeightAt(state, constraints, committedMoves.shardToNextBinMap[shard := target])
      requires newWeight < WeightAt(state, constraints, committedMoves.shardToNextBinMap)
      requires HotterGiveUp(state, constraints, committedMoves.shardToNextBinMap, state.world.home[shard])
      modifies Overlays(state, constraints), committedMoves
      ensures |longer| == |trace| + 1 && AtHead(state, constraints, committedMoves, newWeight, longer)
    {
      hide Installed, CommittedAt, EvaluatedAt, NoCanary, WeightAt, MovementIndex.Inverse, IsRun, SolvingState.Total;
      hide Overlays, HotterGiveUp;
      Apart(state, constraints, committedMoves);
      Apart(state, constraints, movement);
      ghost var was := committedMoves.shardToNextBinMap;
      AcceptedMove(state, constraints, trace, shard, target, newWeight);
      SomeConstraint(state, constraints, was, newWeight, was[shard := target]);
      AcceptMove(committedMoves, movement, shard, target);
      longer := trace + [was[shard := target]];
      CommitAll(state, constraints, Placed(state, was[shard := target]));
      CommittedTotal(state, constraints, was[shard := target]);
    }

    /**
     The search.  `trace` lists the committed moves at the head of every
     iteration: each step moves one shard that had not moved before from its
     home to another bin and strictly lowers the total weight.  Bins are asked
     from the hottest down, and the search stops early only if all give up.
     */
    method Solve(state: SolvingState, constraints: seq<Constraint>)
      returns (committedMoves: MovementMap, ghost trace: seq<ShardBins>)
      requires Installed(state, constraints) && NoCanary(state, constraints)
      requires CommittedAt(state, constraints, Placed(state, map[]))
      modifies Overlays(state, constraints)
      ensures fresh(committedMoves)
      ensures IsRun(state, constraints, trace) && trace[|trace| - 1] == committedMoves.shardToNextBinMap
      ensures |trace| - 1 <= maxIterations
      ensures |trace| - 1 < maxIterations ==> AllGiveUp(state, constraints, committedMoves.shardToNextBinMap)
      ensures CommittedAt(state, constraints, Placed(state, committedMoves.shardToNextBinMap))
      ensures committedMoves.Index().Inverse()
    {
      hide Installed, CommittedAt, EvaluatedAt, NoCanary, WeightAt, MovementIndex.Inverse, IsRun, AllGiveUp;
      committedMoves := new MovementMap();
      RunStarts(state, constraints);
      NoMovesInverse();
      CommittedTotal(state, constraints, map[]);
      trace := Search(state, constraints, committedMoves, state.Total());
    }

    /** Iterates until no bin yields a movement or the iterations are used up. */
    method Search(state: SolvingState, constraints: seq<Constraint>, committedMoves: MovementMap, initialWeight: int)
      returns (ghost trace: seq<ShardBins>)
      requires Installed(state, constraints)
      requires AtHead(state, constraints, committedMoves, initialWeight, [map[]])
      modifies Overlays(state, constraints), committedMoves
      ensures IsRun(state, constraints, trace) && trace[|trace| - 1] == committedMoves.shardToNextBinMap
      ensures |trace| - 1 <= maxIterations
      ensures |trace| - 1 < maxIterations ==> AllGiveUp(state, constraints, committedMoves.shardToNextBinMap)
      ensures CommittedAt(state, constraints, Placed(state, committedMoves.shardToNextBinMap))
      ensures committedMoves.Index().Inverse()
    {
      hide Installed, CommittedAt, EvaluatedAt, NoCanary, WeightAt, MovementIndex.Inverse, IsRun, Overlays;
      hide SolvingState.Total, AllGiveUp;
      Apart(state, constraints, committedMoves);
      trace := [map[]];
      var currentWeight := initialWeight;
      var iter := 0;
      while iter < maxIterations
        invariant 0 <= iter <= maxIterations && |trace| == iter + 1
        invariant Installed(state, constraints)
        invariant AtHead(state, constraints, committedMoves, currentWeight, trace)
      {
        var hasFoundMove;
        hasFoundMove, currentWeight, trace := Iterate(state, constraints, committedMoves, currentWeight, trace);
        if !hasFoundMove {
          break;
        }
        iter := iter + 1;
      }
    }
  }

  /**
   The head of an iteration: every canary layer is empty, the committed layers
   belong to the committed moves, and currentWeight is the committed total.
   */
  ghost predicate AtHead(state: SolvingState, constraints: seq<Constraint>, committedMoves: MovementMap,
                         currentWeight: int,
                         trace: seq<ShardBins>)
    reads Overlays(state, constraints), committedMoves
  {
    && IsRun(state, constraints, trace) && trace[|trace| - 1] == committedMoves.shardToNextBinMap
    && CommittedAt(state, constraints, Placed(state, committedMoves.shardToNextBinMap))
    && NoCanary(state, constraints)
    && currentWeight == WeightAt(state, constraints, committedMoves.shardToNextBinMap) == state.Total()
    && committedMoves.Index().Inverse()
  }

  datatype WeightedBin = WeightedBin(weight: int, bin: DomainId) {
    /** std::greater on (weight, bin) pairs, or equal. */
    predicate AtLeast(other: WeightedBin) {
      weight > other.weight || (weight == other.weight && bin >= other.bin)
    }
  }

  /** Descending weights, and descending bins among equal weights. */
  ghost predicate Sorted(xs: seq<WeightedBin>) {
    forall i, j :: 0 <= i < j < |xs| ==>
      xs[i].weight > xs[j].weight || (xs[i].weight == xs[j].weight && xs[i].bin >= xs[j].bin)
  }

  ghost function AllBins(state: SolvingState, count: nat): seq<WeightedBin>
    reads state.binWeightMap
  {
    if count == 0 then [] else AllBins(state, count - 1) + [WeightedBin(Narrow(state.BinTotal(count - 1)), count - 1)]
  }

  function Insert(xs: seq<WeightedBin>, x: WeightedBin): seq<WeightedBin> {
    if xs == [] then [x]
    else if x.AtLeast(xs[0]) then [x] + xs
    else [xs[0]] + Insert(xs[1..], x)
  }

  lemma {:induction false} InsertKeeps(xs: seq<WeightedBin>, x: WeightedBin)
    ensures multiset(Insert(xs, x)) == multiset(xs) + multiset{x}
    ensures forall e :: e in Insert(xs, x) <==> e in xs || e == x
  {
    if xs != [] && !x.AtLeast(xs[0]) {
      InsertKeeps(xs[1..], x);
      assert xs == [xs[0]] + xs[1..];
    }
  }

  lemma PrependSorts(x: WeightedBin, xs: seq<WeightedBin>)
    requires Sorted(xs) && forall e :: e in xs ==> x.AtLeast(e)
    ensures Sorted([x] + xs)
  {
    var all := [x] + xs;
    forall i, j | 0 <= i < j < |all|
      ensures all[i].weight > all[j].weight || (all[i].weight == all[j].weight && all[i].bin >= all[j].bin)
    {
      assert all[j] == xs[j - 1] && xs[j - 1] in xs;
      if i > 0 {
        assert all[i] == xs[i - 1];
      }
    }
  }

  lemma {:induction false} InsertSorts(xs: seq<WeightedBin>, x: WeightedBin)
    requires Sorted(xs)
    ensures Sorted(Insert(xs, x))
  {
    if xs == [] {
    } else if x.AtLeast(xs[0]) {
      PrependSorts(x, xs);
    } else {
      InsertSorts(xs[1..], x);
      InsertKeeps(xs[1..], x);
      PrependSorts(xs[0], Insert(xs[1..], x));
    }
  }

  lemma {:induction false} InAllBins(state: SolvingState, count: nat, e: WeightedBin)
    ensures e in AllBins(state, count) <==> e.bin < count && e.weight == Narrow(state.BinTotal(e.bin))
  {
    if count > 0 {
      InAllBins(state, count - 1, e);
    }
  }

  lemma {:induction false} OnceInAllBins(state: SolvingState, count: nat, e: WeightedBin)
    ensures multiset(AllBins(state, count))[e] <= 1
  {
    if count > 0 {
      OnceInAllBins(state, count - 1, e);
      InAllBins(state, count - 1, e);
      assert e in AllBins(state, count - 1) <==> multiset(AllBins(state, count - 1))[e] > 0;
    }
  }

  lemma EachBinOnce(state: SolvingState, order: seq<WeightedBin>)
    requires multiset(order) == multiset(AllBins(state, state.numBins))
    ensures forall i, j :: 0 <= i < j < |order| ==> order[i] != order[j]
  {
    forall i, j | 0 <= i < j < |order|
      ensures order[i] != order[j]
    {
      OnceInAllBins(state, state.numBins, order[i]);
      assert order == order[..i] + [order[i]] + order[i + 1..j] + [order[j]] + order[j + 1..];
    }
  }

  /** Whether every bin is in the order once, with the int32 value of its fault entries, the hottest first. */
  ghost predicate InHeatOrder(state: SolvingState, constraints: seq<Constraint>, moves: ShardBins,
                              order: seq<WeightedBin>)
  {
    && Sorted(order)
    && forall e :: e in order <==> e.bin < state.numBins && e == Heat(state, constraints, moves, e.bin)
  }

  lemma OrderByHeat(state: SolvingState, constraints: seq<Constraint>, moves: ShardBins, order: seq<WeightedBin>)
    requires CommittedAt(state, constraints, Placed(state, moves)) && NoCanary(state, constraints)
    requires Sorted(order) && multiset(order) == multiset(AllBins(state, state.numBins))
    ensures InHeatOrder(state, constraints, moves, order)
    ensures forall e :: e in order ==> e.bin < state.numBins
  {
    hide Constraint.Ready, Sorted, EmptyOverlay, TotalWeight, BinWeight;
    assert state.binWeightMap.View() == state.binWeightMap.committedMap;
    forall e
      ensures e in order <==> e.bin < state.numBins && e == Heat(state, constraints, moves, e.bin)
    {
      assert e in order <==> e in multiset(order);
      InAllBins(state, state.numBins, e);
      assert state.BinTotal(e.bin) == BinWeight(state.world, Specs(constraints), Placed(state, moves), e.bin);
    }
  }

  /** Asking bins in heat order until one yields a movement asks all hotter ones before. */
  lemma AskedInOrder(state: SolvingState, constraints: seq<Constraint>, moves: ShardBins, order: seq<WeightedBin>,
                     asked: nat)
    requires InHeatOrder(state, constraints, moves, order) && asked <= |order|
    requires forall j :: 0 <= j < asked ==>
               GivesUp(state, constraints, moves, order[j].bin, WeightAt(state, constraints, moves))
    ensures asked < |order| ==> HotterGiveUp(state, constraints, moves, order[asked].bin)
    ensures asked == |order| ==> AllGiveUp(state, constraints, moves)
  {
    hide GivesUp, WeightAt, Heat;
    if asked < |order| {
      assert order[asked] in order;
    }
    forall b: DomainId | b < state.numBins
        && (asked < |order| ==> Hotter(state, constraints, moves, b, order[asked].bin))
      ensures GivesUp(state, constraints, moves, b, WeightAt(state, constraints, moves))
    {
      assert Heat(state, constraints, moves, b) in order by {
        HeatOf(state, constraints, moves, b);
      }
      var i :| 0 <= i < |order| && order[i] == Heat(state, constraints, moves, b);
      HeatOf(state, constraints, moves, b);
    }
  }

  lemma HeatOf(state: SolvingState, constraints: seq<Constraint>, moves: ShardBins, b: DomainId)
    ensures Heat(state, constraints, moves, b).bin == b
  {
  }

  // ----- Runs -----

  ghost predicate Improves(state: SolvingState, constraints: seq<Constraint>, was: ShardBins, now: ShardBins) {
    && (exists s, b ::
          MayMove(state, was, s, b) && now == was[s := b] && HotterGiveUp(state, constraints, was, state.world.home[s]))
    && WeightAt(state, constraints, now) < WeightAt(state, constraints, was)
  }

  /** The shard is in its home bin, this one, and has not been moved. */
  ghost predicate StillIn(state: SolvingState, moves: ShardBins, s: DomainId, bin: DomainId) {
    s in state.world.home && state.world.home[s] == bin && s !in moves
  }

  /** A possible set of targets: other bins than the given one, all of them or 50 if there are more. */
  ghost predicate Drawn(numBins: nat, bin: DomainId, targets: set<DomainId>) {
    && (forall b :: b in targets ==> b < numBins && b != bin)
    && |targets| == if numBins - 1 < 50 then numBins - 1 else 50
  }

  ghost predicate NoneBetter(state: SolvingState, constraints: seq<Constraint>, moves: ShardBins, s: DomainId,
                             targets: set<DomainId>, weight: int)
  {
    forall b :: b in targets ==> WeightAt(state, constraints, moves[s := b]) >= weight
  }

  /** Some shard left in the bin improves nothing in any bin of a full draw of targets. */
  ghost predicate TriedInVain(state: SolvingState, constraints: seq<Constraint>, moves: ShardBins, bin: DomainId,
                              weight: int)
  {
    exists s, targets ::
      StillIn(state, moves, s, bin) && Drawn(state.numBins, bin, targets)
          && NoneBetter(state, constraints, moves, s, targets, weight)
  }

  /** One round of getMovementForBin: a shard and the bins it is tried in. */
  datatype Draw = Draw(shard: DomainId, targets: set<DomainId>)

  ghost predicate AllInVain(state: SolvingState, constraints: seq<Constraint>, moves: ShardBins, bin: DomainId,
                            weight: int, draws: seq<Draw>)
  {
    forall d :: d in draws ==>
      StillIn(state, moves, d.shard, bin) && Drawn(state.numBins, bin, d.targets)
      && NoneBetter(state, constraints, moves, d.shard, d.targets, weight)
  }

  lemma NoDraws(state: SolvingState, constraints: seq<Constraint>, moves: ShardBins, bin: DomainId, weight: int)
    ensures AllInVain(state, constraints, moves, bin, weight, [])
  {
  }

  lemma AnotherDraw(state: SolvingState, constraints: seq<Constraint>, moves: ShardBins, bin: DomainId, weight: int,
                    draws: seq<Draw>, d: Draw)
    requires AllInVain(state, constraints, moves, bin, weight, draws)
    requires StillIn(state, moves, d.shard, bin) && Drawn(state.numBins, bin, d.targets)
    requires NoneBetter(state, constraints, moves, d.shard, d.targets, weight)
    ensures AllInVain(state, constraints, moves, bin, weight, draws + [d])
  {
    hide StillIn, Drawn, NoneBetter;
  }

  lemma SomeInVain(state: SolvingState, constraints: seq<Constraint>, moves: ShardBins, bin: DomainId, weight: int,
                   draws: seq<Draw>)
    requires AllInVain(state, constraints, moves, bin, weight, draws) && draws != []
    ensures TriedInVain(state, constraints, moves, bin, weight)
  {
    hide StillIn, Drawn, NoneBetter;
    assert draws[0] in draws;
  }

  /** The only reasons for which a bin yields no movement. */
  ghost predicate GivesUp(state: SolvingState, constraints: seq<Constraint>, moves: ShardBins, bin: DomainId,
                          weight: int)
  {
    (forall s :: !StillIn(state, moves, s, bin)) || TriedInVain(state, constraints, moves, bin, weight)
  }

  ghost predicate AllGiveUp(state: SolvingState, constraints: seq<Constraint>, moves: ShardBins) {
    forall b: DomainId :: b < state.numBins ==>
        GivesUp(state, constraints, moves, b, WeightAt(state, constraints, moves))
  }

  /** A bin with the sum of its fault entries as the solver compares it. */
  ghost function Heat(state: SolvingState, constraints: seq<Constraint>, moves: ShardBins, bin: DomainId): WeightedBin {
    WeightedBin(Narrow(BinWeight(state.world, Specs(constraints), Placed(state, moves), bin)), bin)
  }

  ghost predicate Hotter(state: SolvingState, constraints: seq<Constraint>, moves: ShardBins, b: DomainId,
                         than: DomainId)
  {
    var own, other := Heat(state, constraints, moves, than), Heat(state, constraints, moves, b);
    other.weight > own.weight || (other.weight == own.weight && b > than)
  }

  /** Every bin that is asked before the given one gives up. */
  ghost predicate HotterGiveUp(state: SolvingState, constraints: seq<Constraint>, moves: ShardBins, bin: DomainId) {
    forall b: DomainId :: b < state.numBins && Hotter(state, constraints, moves, b, bin) ==>
      GivesUp(state, constraints, moves, b, WeightAt(state, constraints, moves))
  }

  /** A sequence of committed-move maps that starts empty and improves by one move per step. */
  ghost predicate IsRun(state: SolvingState, constraints: seq<Constraint>, trace: seq<ShardBins>) {
    && trace != [] && trace[0] == map[]
    && forall k :: 0 <= k < |trace| - 1 ==> Improves(state, constraints, trace[k], trace[k + 1])
  }

  lemma AcceptedMove(state: SolvingState, constraints: seq<Constraint>, trace: seq<ShardBins>,
                     shard: DomainId, target: DomainId, newWeight: int)
    requires IsRun(state, constraints, trace)
    requires MayMove(state, trace[|trace| - 1], shard, target)
    requires newWeight == WeightAt(state, constraints, trace[|trace| - 1][shard := target])
    requires newWeight < WeightAt(state, constraints, trace[|trace| - 1])
    requires HotterGiveUp(state, constraints, trace[|trace| - 1], state.world.home[shard])
    ensures IsRun(state, constraints, trace + [trace[|trace| - 1][shard := target]])
  {
    hide WeightAt, MayMove, HotterGiveUp;
    var longer := trace + [trace[|trace| - 1][shard := target]];
    forall k | 0 <= k < |longer| - 1
      ensures Improves(state, constraints, longer[k], longer[k + 1])
    {
      if k < |trace| - 1 {
        assert Improves(state, constraints, trace[k], trace[k + 1]);
      }
    }
  }

  lemma RunStarts(state: SolvingState, constraints: seq<Constraint>)
    ensures IsRun(state, constraints, [map[]])
  {
  }

  lemma NoMovesInverse()
    ensures NO_MOVES.Inverse()
  {
  }

  lemma MergedMove(was: MovementIndex, added: MovementIndex, shard: DomainId, target: DomainId, now: MovementIndex)
    requires was.Inverse() && shard !in was.next && added == NO_MOVES.Added(shard, target)
    requires Merged(was, added.next, now)
    ensures now.Inverse() && now.next == was.next[shard := target]
  {
    NoMovesInverse();
    AddKeepsInverseIff(NO_MOVES, shard, target);
    MergeKeepsInverse(was, added, now);
  }

  lemma CommittedTotal(state: SolvingState, constraints: seq<Constraint>, moves: ShardBins)
    requires CommittedAt(state, constraints, Placed(state, moves)) && NoCanary(state, constraints)
    ensures state.Total() == WeightAt(state, constraints, moves)
  {
  }

  /** Without constraints the weight is always 0, so no move is ever accepted. */
  lemma SomeConstraint(state: SolvingState, constraints: seq<Constraint>, was: ShardBins, newWeight: int,
                       now: ShardBins)
    requires newWeight == WeightAt(state, constraints, now) < WeightAt(state, constraints, was)
    ensures constraints != []
  {
  }

  /** The shard has not moved yet, and the target is another bin of the instance than its home. */
  ghost predicate MayMove(state: SolvingState, committed: ShardBins, shard: DomainId, target: DomainId) {
    shard in state.world.home && shard !in committed && target < state.numBins && target != state.world.home[shard]
  }

  lemma EvaluatedTotal(state: SolvingState, constraints: seq<Constraint>, moves: ShardBins)
    requires EvaluatedAt(state, constraints, Placed(state, moves))
    ensures state.Total() == WeightAt(state, constraints, moves)
  {
  }

  lemma InstalledState(state: SolvingState, constraints: seq<Constraint>)
    requires Installed(state, constraints)
    ensures state.Valid()
  {
  }

  lemma SingleTrial(w: World, committed: ShardBins, shard: DomainId, nextBin: DomainId)
    requires shard in w.home && shard !in committed && nextBin != w.home[shard]
    ensures TrialMoves(w, committed, NO_MOVES.Added(shard, nextBin).next)
    ensures committed + NO_MOVES.Added(shard, nextBin).next == committed[shard := nextBin]
  {
  }

  lemma StaticHomes(state: SolvingState, binId: DomainId)
    requires state.Valid()
    ensures forall s :: s in ChildrenAt(state.assignmentTree.Index(), Node(BIN_DOMAIN, binId)) <==>
              s in state.world.home && state.world.home[s] == binId
  {
    var n := Node(BIN_DOMAIN, binId);
    forall s: DomainId
      ensures s in ChildrenAt(state.assignmentTree.Index(), n)
              <==> s in state.world.home && state.world.home[s] == binId
    {
      assert s in state.world.home && state.world.home[s] == binId
          <==> ChildOf(state.world.forest, Node(SHARD_DOMAIN, s), n);
      if n in state.nodes {
        assert IsChildList(state.world.forest, n, state.assignmentTree.Index().parentToChild[n]);
      }
    }
  }

  ghost function Below(n: nat): set<DomainId> {
    if n == 0 then {} else Below(n - 1) + {n - 1}
  }

  lemma {:induction false} CountBelow(n: nat)
    ensures |Below(n)| == n && forall b: DomainId :: b in Below(n) <==> b < n
  {
    if n > 0 {
      CountBelow(n - 1);
    }
  }

  lemma FreshBin(numBins: nat, binId: DomainId, binSet: set<DomainId>)
    requires binId < numBins && |binSet| < numBins - 1
    requires forall b :: b in binSet ==> b < numBins && b != binId
    ensures exists b: DomainId :: b < numBins && b != binId && b !in binSet
  {
    CountBelow(numBins);
    var others := Below(numBins) - {binId};
    assert others + {binId} == Below(numBins);
    assert others == (others - binSet) + binSet;
    var b :| b in others - binSet;
  }

  ghost predicate EmptyOverlay(c: Constraint)
    reads c.expressionTree.metricsMap, c.domainFaultMap
  {
    c.expressionTree.metricsMap.Canary() == map[] && c.domainFaultMap.canaryMap == map[]
  }

  /** The first i constraints have committed, the others still show the move in their canary layers. */
  ghost predicate CommitMidway(state: SolvingState, constraints: seq<Constraint>, cfg: Config, i: nat)
    requires i <= |constraints|
    reads Overlays(state, constraints)
  {
    && (forall j :: 0 <= j < i ==> constraints[j].Ready(cfg) && EmptyOverlay(constraints[j]))
    && (forall j :: i <= j < |constraints| ==> constraints[j].Evaluated(cfg))
    && LedgerAt(state, Specs(constraints), cfg, state.Total(), state.binWeightMap.View())
    && (i > 0 ==> state.binWeightMap.canaryMap == map[] && state.totalWeight.canaryVal == None)
  }

  lemma CommitStart(state: SolvingState, constraints: seq<Constraint>, cfg: Config)
    requires EvaluatedAt(state, constraints, cfg)
    ensures CommitMidway(state, constraints, cfg, 0)
  {
    hide Constraint.Ready, Constraint.Evaluated, LedgerAt;
  }

  lemma CommitEnd(state: SolvingState, constraints: seq<Constraint>, cfg: Config)
    requires constraints != [] && CommitMidway(state, constraints, cfg, |constraints|)
    ensures CommittedAt(state, constraints, cfg) && NoCanary(state, constraints)
  {
    hide Constraint.Ready, Constraint.Evaluated, LedgerAt, Flat;
    assert state.binWeightMap.View() == state.binWeightMap.committedMap;
  }

  /** The first i constraints have evaluated the trial; all still have the old configuration committed. */
  ghost predicate Midway(state: SolvingState, constraints: seq<Constraint>, before: Config, after: Config, i: nat)
    requires i <= |constraints|
    reads Overlays(state, constraints)
  {
    && (forall j :: 0 <= j < |constraints| ==> constraints[j].Ready(before))
    && (forall j :: 0 <= j < i ==> constraints[j].Evaluated(after))
    && state.Total() == MixedTotal(state.world, Specs(constraints), before, after, i)
    && forall b :: state.BinTotal(b) == MixedBin(state.world, Specs(constraints), before, after, i, b)
  }

  lemma CommittedAtParts(state: SolvingState, constraints: seq<Constraint>, cfg: Config)
    ensures CommittedAt(state, constraints, cfg) <==>
            && (forall c :: c in constraints ==> c.Ready(cfg))
            && LedgerAt(state, Specs(constraints), cfg, state.totalWeight.committedVal.GetOr(0),
                state.binWeightMap.committedMap)
  {
  }

  lemma MidwayStart(state: SolvingState, constraints: seq<Constraint>, before: Config, after: Config)
    requires CommittedAt(state, constraints, before)
    requires state.binWeightMap.canaryMap == map[] && state.totalWeight.canaryVal == None
    ensures Midway(state, constraints, before, after, 0)
  {
    MixedStart(state.world, Specs(constraints), before, after);
  }

  lemma MidwayEnd(state: SolvingState, constraints: seq<Constraint>, before: Config, after: Config)
    requires Midway(state, constraints, before, after, |constraints|)
    ensures EvaluatedAt(state, constraints, after)
    ensures forall c :: c in constraints ==> c.Ready(before)
  {
    MixedEnd(state.world, Specs(constraints), before, after);
  }

  // ----- Ledger while some constraints have evaluated the trial and others have not -----

  ghost function MixedTotal(w: World, specs: seq<ConstraintSpec>, before: Config, after: Config, i: nat): int
    requires i <= |specs|
  {
    TotalWeight(w, specs, before) - TotalWeight(w, specs[..i], before) + TotalWeight(w, specs[..i], after)
  }

  ghost function MixedBin(w: World, specs: seq<ConstraintSpec>, before: Config, after: Config, i: nat, b: DomainId): int
    requires i <= |specs|
  {
    BinWeight(w, specs, before, b) - BinWeight(w, specs[..i], before, b) + BinWeight(w, specs[..i], after, b)
  }

  lemma MixedStart(w: World, specs: seq<ConstraintSpec>, before: Config, after: Config)
    ensures MixedTotal(w, specs, before, after, 0) == TotalWeight(w, specs, before)
    ensures forall b :: MixedBin(w, specs, before, after, 0, b) == BinWeight(w, specs, before, b)
  {
  }

  lemma MixedEnd(w: World, specs: seq<ConstraintSpec>, before: Config, after: Config)
    ensures MixedTotal(w, specs, before, after, |specs|) == TotalWeight(w, specs, after)
    ensures forall b :: MixedBin(w, specs, before, after, |specs|, b) == BinWeight(w, specs, after, b)
  {
    assert specs[..|specs|] == specs;
  }

  lemma MixedStep(w: World, specs: seq<ConstraintSpec>, before: Config, after: Config, i: nat)
    requires i < |specs|
    ensures MixedTotal(w, specs, before, after, i + 1)
         == MixedTotal(w, specs, before, after, i) + ConstraintWeight(w, specs[i], after)
             - ConstraintWeight(w, specs[i], before)
    ensures forall b :: MixedBin(w, specs, before, after, i + 1, b)
              == MixedBin(w, specs, before, after, i, b) + BinPart(specs[i], FaultsOf(w, specs[i], after), b)
              - BinPart(specs[i], FaultsOf(w, specs[i], before), b)
  {
    assert specs[..i + 1][..i] == specs[..i];
  }
}
