/** The operators that turn changed children into a new node value. */
module ConstraintUtils {
  import opened Basics
  import opened Sums
  import opened Placement
  import opened Movements
  import opened MappingTree
  import opened Committable
  import opened Evaluation
  import opened State
  import opened Trials

  const DEFAULT_BIN: DomainId := 0

  method ShouldConsiderShard(consistency: MovementConsistency, moves: seq<MovementIndex>, child: DomainId,
                             bin: DomainId)
    returns (r: bool)
    ensures r == Considered(consistency, Nexts(moves), child, bin)
    ensures consistency == BOTH ==> r
    ensures consistency == DURING ==> (r <==> exists j :: 0 <= j < |moves| && child in moves[j].next)
    ensures consistency == BEFORE ==>
              (r <==> exists j :: 0 <= j < |moves| && child in moves[j].next && moves[j].next[child] != bin)
    ensures consistency == AFTER ==>
              (r <==> forall j :: 0 <= j < |moves| && child in moves[j].next ==> moves[j].next[child] == bin)
  {
    var isFutureChild, isMoving := true, false;
    var i := 0;
    while i < |moves|
      invariant 0 <= i <= |moves|
      invariant isFutureChild <==> forall j :: 0 <= j < i && child in moves[j].next ==> moves[j].next[child] == bin
      invariant isMoving <==> exists j :: 0 <= j < i && child in moves[j].next
      invariant isFutureChild
    {
      var nextBin := Lookup(moves[i].next, child);
      if nextBin.Some? {
        isMoving := true;
        if nextBin.value != bin {
          isFutureChild := false;
          assert Nexts(moves)[i] in Nexts(moves);
          break;
        }
      }
      i := i + 1;
    }
    ghost var nexts := Nexts(moves);
    assert forall j :: 0 <= j < |moves| ==> nexts[j] == moves[j].next && nexts[j] in nexts;
    r := ShouldConsider(consistency, isFutureChild, isMoving);
  }

  ghost predicate ShardsMeasured(state: SolvingState, metric: nat, shards: seq<DomainId>) {
    forall s :: s in shards ==> metric < |state.metricVectors| && s < |state.metricVectors[metric]|
  }

  ghost predicate InTree(tree: SparseMappingTree, forest: Forest, nodes: set<Node>, node: Node)
    reads tree
  {
    Indexes(tree.Index(), forest, nodes) && node in nodes
  }

  /** What one changed child contributes: its signed metric in a bin, its value change above the bins. */
  method SumTerm(state: SolvingState, childDomain: Domain, moves: seq<MovementIndex>, metrics: MetricsMap,
                 child: DomainId, node: Node, consistency: MovementConsistency)
    returns (term: int)
    requires state.Valid() && node.domain >= BIN_DOMAIN && childDomain == node.domain - 1
    requires node.domain == BIN_DOMAIN ==> 0 < |state.metricVectors| && child < |state.metricVectors[0]|
    ensures term == ChildTerm(MetricSum(consistency), state.world, Nexts(moves), metrics.View(), metrics.Committed(),
              node)(child)
  {
    hide Flat, Considered;
    var isFutureChild := true;
    if node.domain == BIN_DOMAIN {
      isFutureChild := ShouldConsiderShard(consistency, moves, child, node.id);
    }
    var metric;
    if childDomain == SHARD_DOMAIN {
      metric := state.GetShardMetric(0, child);
    } else {
      var childNode := Node(childDomain, child);
      metric := Narrow(metrics.Get(childNode).GetOr(0) - metrics.GetFromCommittedMap(childNode).GetOr(0));
    }
    term := if isFutureChild then metric else -metric;
  }

  method SumTerms(state: SolvingState, childDomain: Domain, moves: seq<MovementIndex>, metrics: MetricsMap,
                  changed: seq<DomainId>, node: Node, consistency: MovementConsistency)
    returns (sum: int)
    requires state.Valid() && node.domain >= BIN_DOMAIN && childDomain == node.domain - 1
    requires node.domain == BIN_DOMAIN ==> ShardsMeasured(state, 0, changed)
    ensures sum == SeqSum(changed,
              ChildTerm(MetricSum(consistency), state.world, Nexts(moves), metrics.View(), metrics.Committed(), node))
  {
    hide ChildTerm, Flat, SolvingState.Valid;
    ghost var term := ChildTerm(MetricSum(consistency), state.world, Nexts(moves), metrics.View(), metrics.Committed(),
        node);
    sum := 0;
    var i := 0;
    while i < |changed|
      invariant 0 <= i <= |changed|
      invariant sum == SeqSum(changed[..i], term)
    {
      assert changed[..i + 1][..i] == changed[..i] && changed[i] in changed;
      var t := SumTerm(state, childDomain, moves, metrics, changed[i], node, consistency);
      sum := sum + t;
      i := i + 1;
    }
    assert changed[..i] == changed;
  }

  /** Previous value plus the terms of all changed children, converted to int32. */
  method SumOperator(state: SolvingState, tree: SparseMappingTree, moves: seq<MovementIndex>, metrics: MetricsMap,
                     changed: seq<DomainId>, node: Node, consistency: MovementConsistency, ghost nodes: set<Node>)
    returns (val: int)
    requires state.Valid() && InTree(tree, state.world.forest, nodes, node) && Dense(tree.Index())
    requires node.domain == BIN_DOMAIN ==> ShardsMeasured(state, 0, changed)
    ensures val == StepValue(MetricSum(consistency), state.world, moves, metrics.View(), metrics.Committed(), node,
              changed)
  {
    hide Indexes, ChildTerm, Flat, Narrow, SolvingState.Valid;
    TreeDomains(tree.Index(), state.world.forest, nodes, node);
    var childDomain := tree.GetChildDomain(node.domain).value;
    var sum := SumTerms(state, childDomain, moves, metrics, changed, node, consistency);
    val := Narrow(metrics.Get(node).GetOr(0) + sum);
  }

  method CountTerm(moves: seq<MovementIndex>, metrics: MetricsMap, child: DomainId, node: Node,
                   consistency: MovementConsistency, ghost w: World)
    returns (term: int)
    requires node.domain >= BIN_DOMAIN
    ensures term == ChildTerm(ShardCount(consistency), w, Nexts(moves), metrics.View(), metrics.Committed(),
              node)(child)
  {
    hide Considered, Flat;
    var isFutureChild := true;
    if node.domain == BIN_DOMAIN {
      isFutureChild := ShouldConsiderShard(consistency, moves, child, node.id);
    }
    term := if isFutureChild then 1 else -1;
  }

  /** Like SumOperator with weight 1; above the bins every changed child simply adds 1. */
  method ShardCountOperator(moves: seq<MovementIndex>, metrics: MetricsMap, changed: seq<DomainId>, node: Node,
                            consistency: MovementConsistency, ghost w: World)
    returns (val: int)
    requires node.domain >= BIN_DOMAIN
    ensures val == StepValue(ShardCount(consistency), w, moves, metrics.View(), metrics.Committed(), node, changed)
  {
    hide ChildTerm, Flat, Narrow;
    ghost var term := ChildTerm(ShardCount(consistency), w, Nexts(moves), metrics.View(), metrics.Committed(), node);
    var count := 0;
    var i := 0;
    while i < |changed|
      invariant 0 <= i <= |changed|
      invariant count == SeqSum(changed[..i], term)
    {
      assert changed[..i + 1][..i] == changed[..i];
      var t := CountTerm(moves, metrics, changed[i], node, consistency, w);
      count := count + t;
      i := i + 1;
    }
    assert changed[..i] == changed;
    val := Narrow(metrics.Get(node).GetOr(0) + count);
  }

  lemma TreeDomains(t: TreeIndex, forest: Forest, nodes: set<Node>, node: Node)
    requires Indexes(t, forest, nodes) && Dense(t) && node in nodes
    ensures node.domain >= BIN_DOMAIN && node in t.parentToChild
              && Lookup(t.parentToChildDomain, node.domain) == Some(node.domain - 1)
  {
  }

  // ----- The bin a shard will be in -----

  ghost function FirstTarget(nexts: seq<ShardBins>, shard: DomainId): Option<DomainId> {
    if nexts == [] then None
    else if shard in nexts[0] then Some(nexts[0][shard])
    else FirstTarget(nexts[1..], shard)
  }

  ghost function StaticBin(w: World, nodes: set<Node>, shard: DomainId): DomainId {
    if shard in w.home && Node(BIN_DOMAIN, w.home[shard]) in nodes then w.home[shard] else DEFAULT_BIN
  }

  /** The first movement map that moves the shard decides; otherwise its home in this tree, otherwise bin 0. */
  method GetFutureBin(tree: SparseMappingTree, moves: seq<MovementIndex>, shard: DomainId, ghost w: World,
                      ghost nodes: set<Node>)
    returns (bin: DomainId)
    requires w.Valid() && Indexes(tree.Index(), w.forest, nodes)
    ensures bin == FirstTarget(Nexts(moves), shard).GetOr(StaticBin(w, nodes, shard))
    ensures (forall j :: 0 <= j < |moves| ==> shard !in moves[j].next) ==>
              bin == if shard in w.home && Node(BIN_DOMAIN, w.home[shard]) in nodes then w.home[shard] else 0
  {
    hide Indexes;
    var i := 0;
    while i < |moves|
      invariant 0 <= i <= |moves|
      invariant FirstTarget(Nexts(moves), shard) == FirstTarget(Nexts(moves)[i..], shard)
    {
      assert Nexts(moves)[i..][0] == moves[i].next && Nexts(moves)[i..][1..] == Nexts(moves)[i + 1..];
      var nextBin := Lookup(moves[i].next, shard);
      if nextBin.Some? {
        return nextBin.value;
      }
      i := i + 1;
    }
    var parents := tree.GetParents(Node(SHARD_DOMAIN, shard), []);
    HomeParent(tree.Index(), nodes, w, shard);
    ghost var own := |StaticParents(tree.Index(), Node(SHARD_DOMAIN, shard))|;
    assert parents == parents[..own] + parents[own..];
    assert parents == parents[..own];
    var home := FirstBin(parents);
    OnlyHome(w, nodes, shard, parents);
    bin := home.GetOr(DEFAULT_BIN);
  }

  function BinAmong(parents: seq<Node>): Option<DomainId> {
    if parents == [] then None
    else if parents[0].domain == BIN_DOMAIN then Some(parents[0].id)
    else BinAmong(parents[1..])
  }

  method FirstBin(parents: seq<Node>) returns (bin: Option<DomainId>)
    ensures bin == BinAmong(parents)
  {
    var i := 0;
    while i < |parents|
      invariant 0 <= i <= |parents|
      invariant BinAmong(parents) == BinAmong(parents[i..])
    {
      assert parents[i..][0] == parents[i] && parents[i..][1..] == parents[i + 1..];
      if parents[i].domain == BIN_DOMAIN {
        return Some(parents[i].id);
      }
      i := i + 1;
    }
    bin := None;
  }

  lemma OnlyHome(w: World, nodes: set<Node>, shard: DomainId, parents: seq<Node>)
    requires |parents| <= 1
    requires Elements(parents)
          == if shard in w.home && Node(BIN_DOMAIN, w.home[shard]) in nodes then {Node(BIN_DOMAIN, w.home[shard])}
              else {}
    ensures BinAmong(parents).GetOr(DEFAULT_BIN) == StaticBin(w, nodes, shard)
  {
    if |parents| == 1 {
      assert parents[0] in Elements(parents);
    } else {
      assert Elements(parents) == {};
    }
  }

  /**
   In every state of the search, the future bin of a shard is the one bin
   whose filtered child list contains it.
   */
  lemma FutureBinHolds(w: World, nodes: set<Node>, committed: MovementIndex, canary: MovementIndex, shard: DomainId,
                       bin: DomainId)
    requires MovesAway(w, committed) && MovesAway(w, canary) && committed.next.Keys !! canary.next.Keys
    requires shard in w.home && Node(BIN_DOMAIN, w.home[shard]) in nodes
    ensures var moves := [NO_MOVES, committed, canary];
            shard in ConsideredMembers(w, moves, bin)
            <==> FirstTarget(Nexts(moves), shard).GetOr(StaticBin(w, nodes, shard)) == bin
  {
    var moves := [NO_MOVES, committed, canary];
    MemberOfBin(w, committed, canary, bin, shard);
    var nexts := Nexts(moves);
    assert nexts == [map[], committed.next, canary.next];
    var rest := nexts[1..];
    assert rest == [committed.next, canary.next] && rest[1..] == [canary.next];
    var last := rest[1..];
    assert FirstTarget(last[1..], shard) == None;
    assert FirstTarget(nexts, shard) == FirstTarget(rest, shard);
    assert rest[0] == committed.next && last[0] == canary.next;
    assert FirstTarget(rest, shard)
        == if shard in committed.next then Some(committed.next[shard]) else FirstTarget(last, shard);
    assert FirstTarget(last, shard) == if shard in canary.next then Some(canary.next[shard]) else None;
  }
}
