/**
 The incremental machine: expression trees whose evaluations report to the
 constraint that owns them, and constraints that keep fault entries and a
 shared weight ledger up to date.
 */
module Constraints {
  import opened Basics
  import opened Sums
  import opened Placement
  import opened Movements
  import opened MappingTree
  import opened Committable
  import opened Evaluation
  import opened Propagation
  import opened Trials
  import opened State
  import opened Faults
  import ConstraintUtils
  import LoadBalancing

  /** The objects that an evaluation on behalf of the given constraint may write. */
  ghost function Footprint(ledger: Constraint?): set<object> {
    if ledger == null then {} else {ledger.domainFaultMap, ledger.state.binWeightMap, ledger.state.totalWeight}
  }

  class ExpressionTree {
    const state: SolvingState
    const assignmentTree: SparseMappingTree
    const op: Operator
    const metricsMap: MetricsMap
    ghost const world: World     // the instance, with the forest of this tree
    ghost const nodes: set<Node>
    ghost const top: Domain
    ghost const root: Domain

    /** The metric that the operator reads is measured for every shard. */
    ghost predicate Measured()
    {
      !op.ShardCount? ==>
        forall s :: s in state.world.home ==>
          var metric := if op.Extremum? then op.metric else 0;
          metric < |state.metricVectors| && s < |state.metricVectors[metric]|
    }

    ghost predicate Valid()
      reads assignmentTree, state.assignmentTree
    {
      && state.Valid() && Measured()
      && world.Valid() && world.home == state.world.home && world.metrics == state.metricVectors
      && Indexes(assignmentTree.Index(), world.forest, nodes) && HasBins(assignmentTree.Index())
      && (!op.Extremum? ==> world == state.world && Dense(assignmentTree.Index()))
      && op.Mode() == AFTER
      && TreeShape(op, world.forest, nodes, top, root)
    }

    /**
     The values are the from-scratch values of the configuration, and nothing
     else is recorded.  Counts follow the placement at the bins only.
     */
    ghost predicate Tracks(values: Values, cfg: Config) {
      values.Keys <= nodes && forall n :: n in nodes && !Counting(op, n) ==> NodeOk(op, world, n, values, cfg)
    }

    /**
     In plain numbers: recorded sums add up the entries of metric 0 over the
     shards below the node.  At the bins, counts are numbers of shards, and the
     load balancing operator adds up its own metric.
     */
    ghost predicate Shows(values: Values, cfg: Config) {
      forall n :: n in nodes && n in values && (op.MetricSum? || n.domain == BIN_DOMAIN) ==>
        values[n] == Narrow(PlainLoad(op, state.metricVectors, world.forest, n, cfg))
    }

    lemma TracksShows(values: Values, cfg: Config)
      requires Valid() && Tracks(values, cfg)
      ensures Shows(values, cfg)
    {
      hide Indexes, SolvingState.Valid, TreeShape, World.Valid, PlainLoad, Narrow, Touched, Load;
      forall n | n in nodes && n in values && (op.MetricSum? || n.domain == BIN_DOMAIN)
        ensures values[n] == Narrow(PlainLoad(op, state.metricVectors, world.forest, n, cfg))
      {
        LoadIsPlain(op, world, n, cfg);
        assert NodeOk(op, world, n, values, cfg);
      }
    }

    /** Above the bins, a count has grown by one for each child that was written. */
    ghost predicate CountsChildren()
      reads metricsMap
    {
      && OnlyChanges(metricsMap.Committed(), metricsMap.Canary())
      && forall n :: n in nodes && Counting(op, n) ==>
           Counted(world.forest, nodes, metricsMap.Committed(), metricsMap.Canary(), n)
    }

    ghost function Ctx(moves: seq<MovementIndex>, committed: Values, before: Config, after: Config): Context {
      Context(op, world, nodes, top, root, moves, committed, before, after)
    }

    constructor (state: SolvingState, assignmentTree: SparseMappingTree, op: Operator,
                 ghost world: World, ghost nodes: set<Node>, ghost top: Domain, ghost root: Domain)
      ensures this.state == state && this.assignmentTree == assignmentTree && this.op == op
      ensures this.world == world && this.nodes == nodes && this.top == top && this.root == root
      ensures fresh(metricsMap) && metricsMap.Committed() == map[] && metricsMap.Canary() == map[]
    {
      this.state := state;
      this.assignmentTree := assignmentTree;
      this.op := op;
      this.world := world;
      this.nodes := nodes;
      this.top := top;
      this.root := root;
      metricsMap := new MetricsMap();
      new;
      FlatOfEmpty<int>();
    }

    /** calcMetricFunc: the operator applied to one node. */
    method Evaluate(moves: seq<MovementIndex>, changed: seq<DomainId>, n: Node, ghost after: Config) returns (val: int)
      requires Valid() && n in nodes
      requires n.domain == BIN_DOMAIN ==> forall s :: s in changed ==> s in world.home
      requires op.Extremum? ==> MovesMatch(world, moves, after)
      ensures val == StepValue(op, world, moves, metricsMap.View(), metricsMap.Committed(), n, changed)
    {
      hide Indexes, World.Valid, SolvingState.Valid, HasChildren, Flat, StepValue, ConsideredMembers;
      match op {
        case MetricSum(consistency) =>
          val := ConstraintUtils.SumOperator(state, assignmentTree, moves, metricsMap, changed, n, consistency, nodes);
        case ShardCount(consistency) =>
          val := ConstraintUtils.ShardCountOperator(moves, metricsMap, changed, n, consistency, state.world);
        case Extremum(metric, greatest) =>
          val := LoadBalancing.Calculate(state, assignmentTree, moves, metricsMap, changed, n, metric, greatest, world,
              nodes);
      }
    }

    // ----- Propagation -----

    ghost predicate Reports(ledger: Constraint?)
      reads if ledger == null then {} else {metricsMap, ledger.domainFaultMap}
    {
      ledger != null ==>
        && ledger.expressionTree == this && ledger.state == state && ledger.domainFaultMap != state.binWeightMap
        && Synced(ledger.spec, ledger.domainFaultMap.View(), metricsMap.View())
    }

    ghost predicate Runs(ctx: Context)
      reads metricsMap
    {
      && ctx == Ctx(ctx.moves, metricsMap.Committed(), ctx.before, ctx.after)
      && ctx.Valid() && ctx.after.home == world.home && metricsMap.Committed().Keys <= nodes
    }

    /** Tells the parents of a node in this tree that its value was written. */
    method NotifyParentsOf(n: Node, moves: seq<MovementIndex>, next: Updates, ghost ctx: Context) returns (r: Updates)
      requires Valid() && n in nodes && ctx.w == world && ctx.nodes == nodes
      ensures r == ctx.Notified(next, n)
    {
      hide SolvingState.Valid, Indexes, HasChildren, NotifyAll, Notify, StaticParents;
      var parents := assignmentTree.GetParents(n, moves);
      ghost var own := |StaticParents(assignmentTree.Index(), n)|;
      assert parents == parents[..own] + parents[own..];
      assert parents == parents[..own];
      UpperParent(assignmentTree.Index(), world.forest, nodes, n, parents);
      if n in world.forest {
        NotifyOne(next, world.forest[n], n.id);
      }
      NotifyOne(next, n, n.id);
      r := NotifyParents(next, parents, n.id);
    }

    /** Evaluates one notified node, reports its fault, and records a changed value. */
    method VisitNode(ledger: Constraint?, n: Node, changed: seq<DomainId>, moves: seq<MovementIndex>, next: Updates,
                     ghost ctx: Context, ghost domain: Domain, ghost updates: Updates, ghost todo: set<Node>)
      returns (r: Updates)
      requires Valid() && Reports(ledger) && Runs(ctx) && ctx.moves == moves
      requires ctx.Round(metricsMap.Canary(), domain, updates, todo, next) && n in todo && changed == updates[n]
      modifies metricsMap, Footprint(ledger)
      ensures metricsMap.Committed() == old(metricsMap.Committed())
      ensures ctx.Round(metricsMap.Canary(), domain, updates, todo - {n}, r)
      ensures metricsMap.Canary().Keys <= old(metricsMap.Canary().Keys) + {n}
      ensures Reports(ledger)
      ensures ledger != null ==>
                ledger.Residual() == old(ledger.Residual()) && ledger.CommittedLayer() == old(ledger.CommittedLayer())
      ensures ledger != null ==> forall b :: ledger.BinResidual(b) == old(ledger.BinResidual(b))
    {
      hide Context.Valid, Context.Round, Flat, Synced, Context.RightValue, StepValue, ExpressionTree.Valid;
      hide FaultRule.Fault, Constraint.Residual, Constraint.BinResidual, Constraint.CommittedLayer;
      RoundFacts(ctx, metricsMap.Canary(), domain, updates, todo, next, n);
      var prevVal := metricsMap.Get(n);
      var curVal := Evaluate(moves, changed, n, ctx.after);
      if ledger != null {
        SyncedStep(ledger.spec, ledger.domainFaultMap.View(), metricsMap.View(), n, curVal);
        ledger.UpdateWeightIfPossible(n, curVal);
      }
      if prevVal.None? || prevVal.value != curVal {
        ctx.RoundWrite(metricsMap.Canary(), domain, updates, todo, next, n);
        WriteToView(metricsMap.Committed(), metricsMap.Canary(), n, curVal);
        metricsMap.Set(true, curVal, n);
        r := NotifyParentsOf(n, moves, next, ctx);
      } else {
        ctx.RoundKeep(metricsMap.Canary(), domain, updates, todo, next, n);
        assert metricsMap.View()[n := curVal] == metricsMap.View();
        r := next;
      }
    }

    /** Evaluates the notified nodes of one domain, in any order. */
    method EvaluateDomain(ledger: Constraint?, toUpdate: Updates, moves: seq<MovementIndex>,
                          ghost ctx: Context, ghost domain: Domain)
      returns (next: Updates, ghost evaluated: seq<Node>)
      requires Valid() && Reports(ledger) && Runs(ctx) && ctx.moves == moves
      requires ctx.RoundStart(metricsMap.Canary(), domain, toUpdate)
      modifies metricsMap, Footprint(ledger)
      ensures metricsMap.Committed() == old(metricsMap.Committed())
      ensures ctx.Round(metricsMap.Canary(), domain, toUpdate, {}, next)
      ensures Reports(ledger)
      ensures NoDuplicates(evaluated) && Elements(evaluated) == toUpdate.Keys
      ensures metricsMap.Canary().Keys <= old(metricsMap.Canary().Keys) + Elements(evaluated)
      ensures ledger != null ==>
                ledger.Residual() == old(ledger.Residual()) && ledger.CommittedLayer() == old(ledger.CommittedLayer())
      ensures ledger != null ==> forall b :: ledger.BinResidual(b) == old(ledger.BinResidual(b))
    {
      hide Context.Valid, Context.Round, Flat, Synced, ExpressionTree.Valid;
      next := map[];
      var todo := toUpdate.Keys;
      evaluated := [];
      while todo != {}
        invariant todo <= toUpdate.Keys
        invariant NoDuplicates(evaluated) && Elements(evaluated) == toUpdate.Keys - todo
        invariant metricsMap.Canary().Keys <= old(metricsMap.Canary().Keys) + Elements(evaluated)
        invariant metricsMap.Committed() == old(metricsMap.Committed())
        invariant ctx.Round(metricsMap.Canary(), domain, toUpdate, todo, next)
        invariant Reports(ledger)
        invariant ledger != null ==>
                    ledger.Residual() == old(ledger.Residual())
                    && ledger.CommittedLayer() == old(ledger.CommittedLayer())
        invariant ledger != null ==> forall b :: ledger.BinResidual(b) == old(ledger.BinResidual(b))
      {
        var n :| n in todo;
        next := VisitNode(ledger, n, toUpdate[n], moves, next, ctx, domain, toUpdate, todo);
        todo := todo - {n};
        ElementsOfAppend(evaluated, n);
        evaluated := evaluated + [n];
      }
    }

    /**
     Evaluates the notified nodes of one domain, then continues with the parents
     of those whose value was written.
     */
    method PropagateChanges(ledger: Constraint?, toUpdate: Updates, moves: seq<MovementIndex>,
                            ghost ctx: Context, ghost domain: Domain)
      returns (ghost evaluated: seq<Node>)
      requires Valid() && Reports(ledger) && Runs(ctx) && ctx.moves == moves
      requires ctx.RoundStart(metricsMap.Canary(), domain, toUpdate)
      modifies metricsMap, Footprint(ledger)
      ensures metricsMap.Committed() == old(metricsMap.Committed())
      ensures Tracks(metricsMap.View(), ctx.after) && CountsChildren()
      ensures Reports(ledger)
      ensures OnceEach(evaluated) && toUpdate.Keys <= Elements(evaluated) <= nodes
      ensures forall n :: n in evaluated ==> n.domain >= domain
      ensures metricsMap.Canary().Keys <= old(metricsMap.Canary().Keys) + Elements(evaluated)
      ensures ledger != null ==>
                ledger.Residual() == old(ledger.Residual()) && ledger.CommittedLayer() == old(ledger.CommittedLayer())
      ensures ledger != null ==> forall b :: ledger.BinResidual(b) == old(ledger.BinResidual(b))
      decreases root + 1 - domain
    {
      hide Context.Valid, Context.Round, Flat, Synced, ExpressionTree.Valid, ExpressionTree.Tracks, OnceEach;
      hide CountsChildren, NoDuplicates;
      RoundNodes(ctx, metricsMap.Canary(), domain, toUpdate);
      var next;
      next, evaluated := EvaluateDomain(ledger, toUpdate, moves, ctx, domain);
      ctx.RoundEnd(metricsMap.Canary(), domain, toUpdate, next);
      if next != map[] {
        NextRoundExists(ctx, metricsMap.Canary(), domain, next);
        ghost var later := PropagateChanges(ledger, next, moves, ctx, ctx.Next(domain));
        RoundsApart(evaluated, later, domain);
        evaluated := evaluated + later;
      } else {
        OneRound(evaluated, domain);
        ctx.AllSettled(metricsMap.Canary(), ctx.Next(domain));
        CanaryInside(ctx, metricsMap.Canary(), ctx.Next(domain), next);
        SettledTracks(ctx);
      }
    }

    lemma RoundNodes(ctx: Context, canary: Values, domain: Domain, updates: Updates)
      requires ctx.RoundStart(canary, domain, updates)
      ensures updates.Keys <= ctx.nodes && forall n :: n in updates ==> n.domain == domain
    {
    }

    /** Notifies the bins of this tree about one shard. */
    method NotifyBinsOf(shard: DomainId, moves: seq<MovementIndex>, toUpdate: Updates,
                        ghost committed: ShardBins, ghost next: ShardBins, ghost done: set<DomainId>)
      returns (r: Updates)
      requires Valid() && shard in world.home && shard !in done && shard !in committed
      requires shard in next ==> next[shard] != world.home[shard]
      requires Nexts(moves) == [map[], committed, next] || (Nexts(moves) == [map[]] && next == map[])
      requires BinsNotified(toUpdate, nodes, world, next, done)
      ensures BinsNotified(r, nodes, world, next, done + {shard})
    {
      hide Indexes, HasChildren, BinsNotified, NotifyAll, HasBins, World.Valid;
      var parents := assignmentTree.GetParents(Node(SHARD_DOMAIN, shard), moves);
      ghost var t := assignmentTree.Index();
      TargetsOfThree(t, committed, next, shard);
      TargetsOfOne(t, shard);
      ParentsAreEndpoints(t, nodes, world, next, shard, parents, |StaticParents(t, Node(SHARD_DOMAIN, shard))|);
      ShardNotified(toUpdate, nodes, world, next, done, parents, shard);
      r := NotifyParents(toUpdate, parents, shard);
    }

    method NotifyHomes(shardIds: seq<DomainId>, moves: seq<MovementIndex>) returns (toUpdate: Updates)
      requires Valid() && NoDuplicates(shardIds) && Nexts(moves) == [map[]]
      requires HomedIn(world, nodes, Elements(shardIds))
      ensures BinsNotified(toUpdate, nodes, world, map[], Elements(shardIds))
    {
      hide Indexes, HasChildren, BinsNotified, World.Valid;
      toUpdate := map[];
      NothingNotified(nodes, world, map[]);
      assert Elements(shardIds[..0]) == {};
      var i := 0;
      while i < |shardIds|
        invariant 0 <= i <= |shardIds|
        invariant BinsNotified(toUpdate, nodes, world, map[], Elements(shardIds[..i]))
      {
        assert shardIds[i] in Elements(shardIds);
        assert shardIds[..i + 1] == shardIds[..i] + [shardIds[i]];
        ElementsOfAppend(shardIds[..i], shardIds[i]);
        toUpdate := NotifyBinsOf(shardIds[i], moves, toUpdate, map[], map[], Elements(shardIds[..i]));
        i := i + 1;
      }
      assert shardIds[..i] == shardIds;
    }

    /** Computes every value from the static homes. */
    method InitializeMetricState(ledger: Constraint?) returns (ghost evaluated: seq<Node>)
      requires Valid() && Reports(ledger) && metricsMap.Committed() == map[] && metricsMap.Canary() == map[]
      modifies metricsMap, Footprint(ledger)
      ensures metricsMap.Committed() == map[]
      ensures Tracks(metricsMap.View(), Config(state.world.home, map[])) && CountsChildren()
      ensures Shows(metricsMap.View(), Config(state.world.home, map[]))
      ensures OnceEach(evaluated) && metricsMap.Canary().Keys <= Elements(evaluated) <= nodes
      ensures Reports(ledger)
      ensures ledger != null ==>
                ledger.Residual() == old(ledger.Residual()) && ledger.CommittedLayer() == old(ledger.CommittedLayer())
      ensures ledger != null ==> forall b :: ledger.BinResidual(b) == old(ledger.BinResidual(b))
    {
      hide BinsNotified, Flat, Synced, HomedIn, ExpressionTree.Shows, ExpressionTree.Tracks, ExpressionTree.Valid;
      hide ExpressionTree.CountsChildren, Context.Valid, OnceEach, Indexes;
      var moves := [state.GetMovementMap()];
      assert Nexts(moves) == [map[]];
      var shardIds := assignmentTree.GetAllDomainIds(SHARD_DOMAIN);
      StateFacts();
      ShardsOfTree(assignmentTree.Index(), nodes, world, shardIds);
      var toUpdate := NotifyHomes(shardIds, moves);
      ghost var ctx := Ctx(moves, map[], NOWHERE, Config(world.home, map[]));
      InitialValid(ctx);
      InitialStarts(ctx, toUpdate, Elements(shardIds));
      evaluated := PropagateChanges(ledger, toUpdate, moves, ctx, BIN_DOMAIN);
      TracksShows(metricsMap.View(), ctx.after);
    }

    lemma StateFacts()
      requires Valid()
      ensures world.Valid() && world.home == state.world.home
      ensures Indexes(assignmentTree.Index(), world.forest, nodes)
    {
    }

    lemma InitialValid(ctx: Context)
      requires Valid() && ctx == Ctx([NO_MOVES], map[], NOWHERE, Config(world.home, map[]))
      ensures ctx.Valid()
    {
      hide Indexes, MovesMatch, NodeValue;
      StillMoves(world);
    }

    /** Evaluates canary moves on top of committed moves in the canary layer. */
    method CanaryMoves(ledger: Constraint?, committedMoves: MovementMap, canaryMoves: MovementMap)
      returns (ghost evaluated: seq<Node>)
      requires Valid()
      requires ledger != null ==>
                 ledger.expressionTree == this && ledger.state == state && ledger.domainFaultMap != state.binWeightMap
                                  && Synced(ledger.spec, ledger.domainFaultMap.View(), metricsMap.Committed())
      requires Tracks(metricsMap.Committed(), Config(world.home, committedMoves.shardToNextBinMap))
      requires TrialMoves(world, committedMoves.shardToNextBinMap, canaryMoves.shardToNextBinMap)
      requires op.Extremum? ==> MovesAway(world, committedMoves.Index()) && MovesAway(world, canaryMoves.Index())
      modifies metricsMap, Footprint(ledger)
      ensures metricsMap.Committed() == old(metricsMap.Committed())
      ensures Tracks(metricsMap.View(),
                     Config(state.world.home, committedMoves.shardToNextBinMap + canaryMoves.shardToNextBinMap))
      ensures CountsChildren()
      ensures Shows(metricsMap.View(),
                    Config(state.world.home, committedMoves.shardToNextBinMap + canaryMoves.shardToNextBinMap))
      ensures OnceEach(evaluated) && metricsMap.Canary().Keys <= Elements(evaluated) <= nodes
      ensures Reports(ledger)
      ensures ledger != null ==>
                ledger.Residual() == old(ledger.Residual()) && ledger.CommittedLayer() == old(ledger.CommittedLayer())
      ensures ledger != null ==> forall b :: ledger.BinResidual(b) == old(ledger.BinResidual(b))
    {
      hide BinsNotified, Flat, Synced, MovesAway, ExpressionTree.Tracks, ExpressionTree.Valid, TrialMoves;
      hide ExpressionTree.Shows, ExpressionTree.CountsChildren, Indexes, Context.RoundStart, World.Valid;
      hide Context.Valid, OnceEach;
      StateFacts();
      metricsMap.Clear();
      var moves := [state.GetMovementMap(), committedMoves.Index(), canaryMoves.Index()];
      var toUpdate := NotifyMoved(committedMoves.Index(), canaryMoves.Index(), moves);
      ghost var ctx := Ctx(moves, metricsMap.Committed(), Config(world.home, committedMoves.shardToNextBinMap),
                           Config(world.home, committedMoves.shardToNextBinMap + canaryMoves.shardToNextBinMap));
      TrialReady(ctx, committedMoves.Index(), canaryMoves.Index(), toUpdate);
      evaluated := PropagateChanges(ledger, toUpdate, moves, ctx, BIN_DOMAIN);
      TracksShows(metricsMap.View(), ctx.after);
    }

    method NotifyMoved(committed: MovementIndex, canary: MovementIndex, moves: seq<MovementIndex>)
      returns (toUpdate: Updates)
      requires Valid() && moves == [NO_MOVES, committed, canary]
      requires TrialMoves(world, committed.next, canary.next)
      ensures BinsNotified(toUpdate, nodes, world, canary.next, canary.next.Keys)
    {
      hide BinsNotified, ExpressionTree.Valid;
      var allMovements := canary.next;
      assert Nexts(moves) == [map[], committed.next, allMovements];
      toUpdate := map[];
      NothingNotified(nodes, world, allMovements);
      var todo := allMovements.Keys;
      assert allMovements.Keys - todo == {};
      while todo != {}
        invariant todo <= allMovements.Keys
        invariant BinsNotified(toUpdate, nodes, world, allMovements, allMovements.Keys - todo)
      {
        var shard :| shard in todo;
        toUpdate := NotifyBinsOf(shard, moves, toUpdate, committed.next, allMovements, allMovements.Keys - todo);
        assert allMovements.Keys - (todo - {shard}) == allMovements.Keys - todo + {shard};
        todo := todo - {shard};
      }
      assert allMovements.Keys - {} == allMovements.Keys;
    }

    lemma TrialReady(ctx: Context, committed: MovementIndex, canary: MovementIndex, toUpdate: Updates)
      requires Valid() && TrialMoves(world, committed.next, canary.next) && Tracks(ctx.committed, ctx.before)
      requires ctx == Ctx([NO_MOVES, committed, canary], ctx.committed, Config(world.home, committed.next),
                          Config(world.home, committed.next + canary.next))
      requires op.Extremum? ==> MovesAway(world, committed) && MovesAway(world, canary)
      requires BinsNotified(toUpdate, nodes, world, canary.next, canary.next.Keys)
      ensures ctx.Valid() && ctx.committed.Keys <= nodes && ctx.RoundStart(map[], BIN_DOMAIN, toUpdate)
    {
      hide ExpressionTree.Valid, ExpressionTree.Tracks, TrialMoves, MovesAway, BinsNotified, Context.Valid;
      TrialValid(ctx, committed, canary);
      TrialStarts(ctx, committed, canary, toUpdate);
    }

    lemma TrialValid(ctx: Context, committed: MovementIndex, canary: MovementIndex)
      requires Valid() && TrialContext(ctx, committed, canary)
      requires ctx == Ctx(ctx.moves, ctx.committed, ctx.before, ctx.after)
      requires Tracks(ctx.committed, ctx.before)
      requires op.Extremum? ==> MovesAway(world, committed) && MovesAway(world, canary)
      ensures ctx.Valid() && ctx.committed.Keys <= nodes
    {
      hide Indexes, MovesMatch, NodeOk, HasChildren;
      if op.Extremum? {
        MembersPartition(world, committed, canary);
      }
    }

    method CommitMoves()
      modifies metricsMap
      ensures metricsMap.Committed() == old(metricsMap.View()) && metricsMap.Canary() == map[]
      ensures metricsMap.View() == old(metricsMap.View())
    {
      metricsMap.Commit();
    }

    lemma NextRoundExists(ctx: Context, canary: Values, domain: Domain, next: Updates)
      requires Valid() && ctx.nodes == nodes && ctx.top == top && ctx.root == root
      requires ctx.RoundStart(canary, ctx.Next(domain), next) && next != map[]
      ensures domain < ctx.Next(domain) <= root
    {
      var n :| n in next;
    }

    lemma CanaryInside(ctx: Context, canary: Values, domain: Domain, updates: Updates)
      requires ctx.RoundStart(canary, domain, updates)
      ensures canary.Keys <= ctx.nodes && OnlyChanges(ctx.committed, canary)
    {
    }

    lemma SettledTracks(ctx: Context)
      requires Valid() && Runs(ctx) && metricsMap.Canary().Keys <= nodes
      requires OnlyChanges(metricsMap.Committed(), metricsMap.Canary())
      requires forall n :: n in nodes ==> ctx.Settled(metricsMap.Canary(), n)
      requires metricsMap.Committed().Keys <= nodes
      ensures Tracks(metricsMap.View(), ctx.after) && CountsChildren()
    {
    }
  }

  /** No node twice, lower domains first. */
  ghost predicate OnceEach(evaluated: seq<Node>) {
    && NoDuplicates(evaluated)
    && forall i, j :: 0 <= i < j < |evaluated| ==> evaluated[i].domain <= evaluated[j].domain
  }

  lemma OneRound(round: seq<Node>, domain: Domain)
    requires NoDuplicates(round) && forall n :: n in Elements(round) ==> n.domain == domain
    ensures OnceEach(round)
  {
    assert forall i :: 0 <= i < |round| ==> round[i] in Elements(round);
  }

  lemma RoundsApart(round: seq<Node>, later: seq<Node>, domain: Domain)
    requires NoDuplicates(round) && OnceEach(later)
    requires forall n :: n in Elements(round) ==> n.domain == domain
    requires forall n :: n in later ==> n.domain > domain
    ensures OnceEach(round + later) && Elements(round + later) == Elements(round) + Elements(later)
  {
    forall i, j | 0 <= i < j < |round + later|
      ensures (round + later)[i] != (round + later)[j]
      ensures (round + later)[i].domain <= (round + later)[j].domain
    {
      if i < |round| {
        assert round[i] in Elements(round);
        if j < |round| {
          assert round[j] in Elements(round);
        } else {
          assert later[j - |round|] in later;
        }
      }
    }
  }

  lemma WriteToView(committed: Values, canary: Values, n: Node, val: int)
    ensures (committed + canary)[n := val] == committed + canary[n := val]
  {
  }

  /** What a round knows about a node that is about to be evaluated. */
  lemma RoundFacts(ctx: Context, canary: Values, domain: Domain, updates: Updates, todo: set<Node>, next: Updates,
                   n: Node)
    requires ctx.Valid() && ctx.Round(canary, domain, updates, todo, next) && n in todo
    ensures n in ctx.nodes && n in updates
    ensures StepValue(ctx.op, ctx.w, ctx.moves, ctx.committed + canary, ctx.committed, n, updates[n])
         == ctx.RightValue(canary, n)
    ensures n.domain == BIN_DOMAIN ==> forall s :: s in updates[n] ==> s in ctx.after.home
    ensures ctx.op.Extremum? ==> MovesMatch(ctx.w, ctx.moves, ctx.after)
  {
    hide StepValue, NodeValue, NodeOk, HasChildren, Context.RightValue;
    ctx.RoundIsReady(canary, domain, updates, todo, next, n);
    ctx.EvaluatedRight(canary, updates, n);
  }

  class Constraint {
    const state: SolvingState
    const spec: ConstraintSpec
    const expressionTree: ExpressionTree
    const domainFaultMap: CommittableMap<DomainId, int>

    /** Builds the tree of the scope, evaluates it from the static homes and commits the result. */
    constructor (state: SolvingState, rule: FaultRule, consistency: MovementConsistency, domain: Domain,
                 domainIds: seq<DomainId>)
      requires state.Valid() && consistency == AFTER
      requires rule.Drain? ==> domain == BIN_DOMAIN
      requires rule.Capacity? ==> forall s :: s in state.world.home ==>
                 0 < |state.metricVectors| && s < |state.metricVectors[0]|
      requires ScopeHasBin(state, domain, domainIds)
      requires state.binWeightMap.canaryMap == map[] && state.totalWeight.canaryVal == None
      modifies state.binWeightMap, state.totalWeight
      ensures Valid() && this.state == state
                && spec == ConstraintSpec(rule, consistency, domain, set id | id in domainIds)
      ensures fresh(expressionTree) && fresh(expressionTree.metricsMap) && fresh(domainFaultMap)
      ensures expressionTree.state == state && domainFaultMap != state.binWeightMap
      ensures Ready(Config(state.world.home, map[])) && CanaryEmpty()
      ensures state.Total() == old(state.Total()) + WeightIn(Config(state.world.home, map[]))
      ensures forall b :: state.BinTotal(b) == old(state.BinTotal(b)) + BinWeightIn(Config(state.world.home, map[]), b)
    {
      hide Represents, SolvingState.Valid, Flat, Synced, FaultsOf, ScopeHasBin, ExpressionTree.Valid;
      hide ExpressionTree.Tracks;
      this.state := state;
      spec := ConstraintSpec(rule, consistency, domain, set id | id in domainIds);
      domainFaultMap := new CommittableMap<DomainId, int>();
      StateComplete(state);
      var partial, reached := state.assignmentTree.CreatePartialTree(domain, domainIds, state.world.forest,
          state.nodes);
      var op := ConstraintSpec(rule, consistency, domain, {}).Op();
      expressionTree := new ExpressionTree(state, partial, op, state.world, reached, domain, domain + 1);
      new;
      ScopeTreeValid(domainIds);
      Start();
    }

    /** First evaluation, from the static homes, and its commit. */
    method Start()
      requires Valid() && expressionTree.metricsMap.Committed() == map[] && expressionTree.metricsMap.Canary() == map[]
      requires domainFaultMap.committedMap == map[] && domainFaultMap.canaryMap == map[]
      requires state.binWeightMap.canaryMap == map[] && state.totalWeight.canaryVal == None
      modifies expressionTree.metricsMap, domainFaultMap, state.binWeightMap, state.totalWeight
      ensures Ready(Config(state.world.home, map[])) && CanaryEmpty()
      ensures state.Total() == old(state.Total()) + WeightIn(Config(state.world.home, map[]))
      ensures forall b :: state.BinTotal(b) == old(state.BinTotal(b)) + BinWeightIn(Config(state.world.home, map[]), b)
    {
      hide Represents, SolvingState.Valid, Flat, Synced, FaultsOf, ExpressionTree.Valid, ExpressionTree.Tracks;
      hide MapTotal;
      ghost var cfg := Config(state.world.home, map[]);
      NothingSynced(spec);
      NothingTotal();
      assert Residual() == state.Total();
      assert forall b :: BinResidual(b) == state.BinTotal(b);
      ghost var evaluated := expressionTree.InitializeMetricState(this);
      SyncedEvaluated(cfg);
      Residuals(cfg);
      forall b
        ensures state.BinTotal(b) == old(state.BinTotal(b)) + BinWeightIn(cfg, b)
      {
        assert BinResidual(b) == old(BinResidual(b));
      }
      Commit(cfg);
    }

    ghost predicate Valid()
      reads expressionTree.assignmentTree, expressionTree.state.assignmentTree
    {
      && expressionTree.Valid() && expressionTree.state == state && expressionTree.op == spec.Op()
      && expressionTree.world == state.world && (forall n :: n in expressionTree.nodes ==> !Counting(spec.Op(), n))
      && domainFaultMap != state.binWeightMap
      && (forall id: DomainId :: id in spec.scope <==> Node(spec.domain, id) in expressionTree.nodes)
    }

    /** Total weight that does not come from this constraint's fault entries. */
    ghost function Residual(): int
      reads domainFaultMap, state.totalWeight
    {
      state.Total() - MapTotal(domainFaultMap.View())
    }

    /** Bin weight that does not come from this constraint's fault entries. */
    ghost function BinResidual(bin: DomainId): int
      reads domainFaultMap, state.binWeightMap
    {
      state.BinTotal(bin) - BinPart(spec, domainFaultMap.View(), bin)
    }

    ghost function CommittedLayer(): (map<DomainId, int>, map<DomainId, int>, Option<int>)
      reads domainFaultMap, state.binWeightMap, state.totalWeight
    {
      (domainFaultMap.committedMap, state.binWeightMap.committedMap, state.totalWeight.committedVal)
    }

    method AddTotalWeight(weightDelta: int)
      modifies state.totalWeight
      ensures state.Total() == old(state.Total()) + weightDelta
      ensures state.totalWeight.committedVal == old(state.totalWeight.committedVal)
    {
      var prevTotalWeight := state.totalWeight.Get().GetOr(0);
      state.totalWeight.Set(true, prevTotalWeight + weightDelta);
    }

    method AddBinWeight(bin: DomainId, binWeightDelta: int)
      modifies state.binWeightMap, state.totalWeight
      ensures state.Total() == old(state.Total()) + binWeightDelta
      ensures state.totalWeight.committedVal == old(state.totalWeight.committedVal)
      ensures forall b :: state.BinTotal(b) == old(state.BinTotal(b)) + if b == bin then binWeightDelta else 0
      ensures state.binWeightMap.committedMap == old(state.binWeightMap.committedMap)
    {
      var prevWeight := state.binWeightMap.Get(bin).GetOr(0);
      state.binWeightMap.Set(true, prevWeight + binWeightDelta, bin);
      AddTotalWeight(binWeightDelta);
    }

    /** Records the fault of an evaluated node and adds the difference to the shared weights. */
    method UpdateWeightIfPossible(node: Node, val: int)
      requires domainFaultMap != state.binWeightMap
      modifies domainFaultMap, state.binWeightMap, state.totalWeight
      ensures domainFaultMap.View() == if node.domain == spec.domain
                                       then old(domainFaultMap.View())[node.id := spec.rule.Fault(val)]
                                       else old(domainFaultMap.View())
      ensures var delta := if node.domain == spec.domain
                           then spec.rule.Fault(val) - old(ValueOrZero(domainFaultMap.View(), node.id)) else 0;
              && state.Total() == old(state.Total()) + delta
              && forall b :: state.BinTotal(b)
                   == old(state.BinTotal(b)) + if spec.domain == BIN_DOMAIN && b == node.id then delta else 0
      ensures Residual() == old(Residual())
      ensures forall b :: BinResidual(b) == old(BinResidual(b))
      ensures CommittedLayer() == old(CommittedLayer())
    {
      hide FaultRule.Fault;
      if node.domain == spec.domain {
        var prevWeight := domainFaultMap.Get(node.id).GetOr(0);
        var currentWeight := spec.rule.Fault(val);
        MapTotalUpdate(domainFaultMap.View(), node.id, currentWeight);
        domainFaultMap.Set(true, currentWeight, node.id);
        var weightDelta := currentWeight - prevWeight;
        if weightDelta == 0 {
          return;
        }
        if spec.domain == BIN_DOMAIN {
          AddBinWeight(node.id, weightDelta);
        } else {
          AddTotalWeight(weightDelta);
        }
      }
    }

    /** The committed layer holds the from-scratch values and faults of the configuration. */
    ghost predicate Ready(cfg: Config)
      reads expressionTree.metricsMap, domainFaultMap
    {
      && expressionTree.Tracks(expressionTree.metricsMap.Committed(), cfg)
      && domainFaultMap.committedMap == FaultsOf(state.world, spec, cfg)
    }

    /** What is read now, canary layer included, belongs to the configuration. */
    ghost predicate Evaluated(cfg: Config)
      reads expressionTree.metricsMap, domainFaultMap
    {
      && expressionTree.Tracks(expressionTree.metricsMap.View(), cfg)
      && domainFaultMap.View() == FaultsOf(state.world, spec, cfg)
    }

    ghost predicate CanaryEmpty()
      reads expressionTree.metricsMap, domainFaultMap, state.binWeightMap, state.totalWeight
    {
      && expressionTree.metricsMap.Canary() == map[] && domainFaultMap.canaryMap == map[]
      && state.binWeightMap.canaryMap == map[] && state.totalWeight.canaryVal == None
    }

    ghost function Before(committedMoves: MovementMap): Config
      reads committedMoves
    {
      Config(state.world.home, committedMoves.shardToNextBinMap)
    }

    ghost function After(committedMoves: MovementMap, canaryMoves: MovementMap): Config
      reads committedMoves, canaryMoves
    {
      Config(state.world.home, committedMoves.shardToNextBinMap + canaryMoves.shardToNextBinMap)
    }

    ghost function WeightIn(cfg: Config): int {
      ConstraintWeight(state.world, spec, cfg)
    }

    ghost function BinWeightIn(cfg: Config, bin: DomainId): int {
      BinPart(spec, FaultsOf(state.world, spec, cfg), bin)
    }

    /** Evaluates a trial in the canary layers, whatever an earlier trial left there. */
    method CanaryMoves(committedMoves: MovementMap, canaryMoves: MovementMap)
      requires Valid() && Ready(Before(committedMoves))
      requires TrialMoves(state.world, committedMoves.shardToNextBinMap, canaryMoves.shardToNextBinMap)
      modifies expressionTree.metricsMap, domainFaultMap, state.binWeightMap, state.totalWeight
      ensures Ready(Before(committedMoves))
      ensures Evaluated(After(committedMoves, canaryMoves))
      ensures CommittedLayer() == old(CommittedLayer())
      ensures state.Total()
                == old(state.Total()) + WeightIn(After(committedMoves, canaryMoves)) - WeightIn(Before(committedMoves))
      ensures var before, after := Before(committedMoves), After(committedMoves, canaryMoves);
              forall b :: state.BinTotal(b) == old(state.BinTotal(b)) + BinWeightIn(after, b) - BinWeightIn(before, b)
    {
      hide Represents, SolvingState.Valid, Flat, Synced, FaultsOf, ExpressionTree.Valid, TrialMoves;
      hide ExpressionTree.Tracks, ExpressionTree.Shows, ExpressionTree.CountsChildren, OnceEach;
      ghost var before, after := Before(committedMoves), After(committedMoves, canaryMoves);
      domainFaultMap.Clear();
      ReadySynced(before);
      Residuals(before);
      label Cleared:
      ghost var evaluated := expressionTree.CanaryMoves(this, committedMoves, canaryMoves);
      SyncedEvaluated(after);
      Residuals(after);
      forall b
        ensures state.BinTotal(b) == old(state.BinTotal(b)) + BinWeightIn(after, b) - BinWeightIn(before, b)
      {
        assert BinResidual(b) == old@Cleared(BinResidual(b));
      }
    }

    lemma ReadySynced(cfg: Config)
      requires Valid() && Ready(cfg) && domainFaultMap.canaryMap == map[]
      ensures domainFaultMap.View() == FaultsOf(state.world, spec, cfg)
      ensures Synced(spec, domainFaultMap.View(), expressionTree.metricsMap.Committed())
    {
      hide Represents, SolvingState.Valid, Flat, Synced, FaultsOf, ExpressionTree.Valid, NodeOk;
      FaultsSynced(state.world, spec, expressionTree.nodes, expressionTree.metricsMap.Committed(), cfg);
    }

    lemma SyncedEvaluated(cfg: Config)
      requires Valid() && expressionTree.Reports(this) && expressionTree.Tracks(expressionTree.metricsMap.View(), cfg)
      ensures Evaluated(cfg)
    {
      hide Represents, SolvingState.Valid, Flat, Synced, FaultsOf, ExpressionTree.Valid, NodeOk;
      SyncedFaults(state.world, spec, expressionTree.nodes, domainFaultMap.View(), expressionTree.metricsMap.View(),
          cfg);
    }

    lemma Residuals(cfg: Config)
      requires domainFaultMap.View() == FaultsOf(state.world, spec, cfg)
      ensures Residual() == state.Total() - WeightIn(cfg)
      ensures forall b :: BinResidual(b) == state.BinTotal(b) - BinWeightIn(cfg, b)
    {
      hide FaultsOf;
    }

    method CommitMoves()
      requires domainFaultMap != state.binWeightMap
      modifies expressionTree.metricsMap, domainFaultMap
      ensures expressionTree.metricsMap.Committed() == old(expressionTree.metricsMap.View())
      ensures expressionTree.metricsMap.Canary() == map[] && domainFaultMap.canaryMap == map[]
      ensures domainFaultMap.committedMap == old(domainFaultMap.View())
    {
      expressionTree.CommitMoves();
      domainFaultMap.Commit();
    }

    /** Keeps the evaluated trial: this constraint's layers and the shared weights. */
    method Commit(ghost cfg: Config)
      requires domainFaultMap != state.binWeightMap && Evaluated(cfg)
      modifies expressionTree.metricsMap, domainFaultMap, state.binWeightMap, state.totalWeight
      ensures CanaryEmpty() && Ready(cfg)
      ensures expressionTree.metricsMap.Committed() == old(expressionTree.metricsMap.View())
      ensures domainFaultMap.committedMap == old(domainFaultMap.View())
      ensures state.binWeightMap.committedMap == old(state.binWeightMap.View())
      ensures state.totalWeight.committedVal == old(state.totalWeight.Get())
      ensures state.Total() == old(state.Total()) && state.binWeightMap.View() == old(state.binWeightMap.View())
    {
      hide Flat, ExpressionTree.Tracks, FaultsOf;
      CommitMoves();
      state.binWeightMap.Commit();
      state.totalWeight.Commit();
    }

    lemma ScopeTreeValid(domainIds: seq<DomainId>)
      requires state.Valid() && spec.consistency == AFTER && spec.scope == set id | id in domainIds
      requires spec.rule.Drain? ==> spec.domain == BIN_DOMAIN
      requires spec.rule.Capacity? ==> forall s :: s in state.world.home ==>
                 0 < |state.metricVectors| && s < |state.metricVectors[0]|
      requires ScopeHasBin(state, spec.domain, domainIds)
      requires expressionTree.state == state && expressionTree.op == spec.Op() && expressionTree.world == state.world
      requires expressionTree.top == spec.domain && expressionTree.root == spec.domain + 1
      requires domainFaultMap != state.binWeightMap
      requires Represents(expressionTree.assignmentTree.Index(), state.world.forest, expressionTree.nodes)
      requires forall n: Node :: n in expressionTree.nodes <==>
                 n.domain in state.assignmentTree.parentToChildDomainMap
                     && Reaches(state.world.forest, n, spec.domain, domainIds)
      ensures Valid()
    {
      hide Represents, HasChildren, Reaches, Complete, Layered, BinInScope, SolvingState.Valid, Indexes, TreeShape;
      hide World.Valid, Dense, HasBins;
      StateComplete(state);
      LayeredIndexes(expressionTree.assignmentTree.Index(), state.world.forest, expressionTree.nodes);
      ScopeTree(state.assignmentTree.Index(), state.world.forest, state.nodes, spec.domain, domainIds,
          expressionTree.nodes);
      ScopeShape(expressionTree.op, state.world.forest, expressionTree.nodes, spec.domain);
      BinsOfIndex(expressionTree.assignmentTree.Index(), state.world.forest, expressionTree.nodes);
    }
  }

  /** Some bin lies at or below the scope. */
  ghost predicate ScopeHasBin(state: SolvingState, domain: Domain, domainIds: seq<DomainId>)
    reads state.assignmentTree
  {
    BinInScope(state.assignmentTree.Index(), state.world.forest, domain, domainIds)
  }

  lemma StateComplete(state: SolvingState)
    requires state.Valid()
    ensures Represents(state.assignmentTree.Index(), state.world.forest, state.nodes)
    ensures Complete(state.world.forest, state.nodes) && Layered(state.world.forest)
    ensures state.world.Valid() && state.world.metrics == state.metricVectors
  {
  }

  /** Without a root, the tree of a scope is what is at or below it. */
  lemma ScopeShape(op: Operator, forest: Forest, nodes: set<Node>, domain: Domain)
    requires Layered(forest) && domain >= BIN_DOMAIN
    requires forall n :: n in nodes ==> BIN_DOMAIN <= n.domain <= domain && HasChildren(forest, nodes, n)
    ensures TreeShape(op, forest, nodes, domain, domain + 1)
  {
    hide HasChildren;
    LayeredRises(forest);
  }

  lemma BinsOfIndex(t: TreeIndex, forest: Forest, nodes: set<Node>)
    requires Represents(t, forest, nodes) && exists b :: Node(BIN_DOMAIN, b) in nodes
    ensures HasBins(t)
  {
  }

  lemma NothingSynced(spec: ConstraintSpec)
    ensures Synced(spec, map[], map[])
  {
  }

  lemma NothingTotal()
    ensures MapTotal<DomainId>(map[]) == 0
  {
  }

  /** Faults that belong to a configuration are in step with the values that belong to it. */
  lemma FaultsSynced(w: World, spec: ConstraintSpec, nodes: set<Node>, values: Values, cfg: Config)
    requires values.Keys <= nodes && forall n :: n in nodes ==> NodeOk(spec.Op(), w, n, values, cfg)
    requires forall id: DomainId :: id in spec.scope <==> Node(spec.domain, id) in nodes
    ensures Synced(spec, FaultsOf(w, spec, cfg), values)
  {
    hide NodeValue, Touched, FaultRule.Fault;
    forall id
      ensures id in FaultsOf(w, spec, cfg) <==> Node(spec.domain, id) in values
    {
    }
  }
}
