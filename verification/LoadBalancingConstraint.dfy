/** The node operator of the load balancing constraint: from-scratch bin sums, least or greatest value above. */
module LoadBalancing {
  import opened Basics
  import opened Sums
  import opened Placement
  import opened Movements
  import opened MappingTree
  import opened Committable
  import opened Evaluation
  import opened State
  import opened ConstraintUtils

  ghost function StayingIn(children: seq<DomainId>, moves: seq<MovementIndex>, bin: DomainId): set<DomainId> {
    set s | s in children && Considered(AFTER, Nexts(moves), s, bin)
  }

  ghost function RecordedOf(children: seq<DomainId>, domain: Domain, view: Values): set<int> {
    set id | id in children && Node(domain, id) in view :: view[Node(domain, id)]
  }

  /** Sum of the metric over the children that stay in the bin. */
  method BinSum(state: SolvingState, metric: nat, children: seq<DomainId>, moves: seq<MovementIndex>, bin: DomainId,
                ghost greatest: bool, ghost w: World)
    returns (sum: int)
    requires w.metrics == state.metricVectors && ShardsMeasured(state, metric, children)
    requires forall s :: multiset(children)[s] <= 1
    ensures sum == Narrow(SumOver(StayingIn(children, moves, bin), WeightOf(Extremum(metric, greatest), w)))
  {
    hide Considered, Narrow, WeightOf;
    ghost var weight := WeightOf(Extremum(metric, greatest), w);
    ghost var kept: set<DomainId> := {};
    sum := 0;
    NarrowExact(0);
    var i := 0;
    while i < |children|
      invariant 0 <= i <= |children|
      invariant kept == StayingIn(children[..i], moves, bin)
      invariant sum == Narrow(SumOver(kept, weight))
    {
      var child := children[i];
      assert child in children;
      assert children[..i + 1] == children[..i] + [child];
      NotYetSeen(children, i);
      var stays := ShouldConsiderShard(AFTER, moves, child, bin);
      if stays {
        sum := AddMetric(state, metric, child, sum, greatest, w);
        OneMore(kept, weight, child);
        kept := kept + {child};
      }
      i := i + 1;
    }
    assert children[..i] == children;
  }

  /** sum += metric on an int32 accumulator. */
  method AddMetric(state: SolvingState, metric: nat, child: DomainId, sum: int, ghost greatest: bool, ghost w: World)
    returns (r: int)
    requires w.metrics == state.metricVectors
    requires metric < |state.metricVectors| && child < |state.metricVectors[metric]|
    ensures r == Narrow(sum + WeightOf(Extremum(metric, greatest), w)(child))
  {
    r := Narrow(sum + state.GetShardMetric(metric, child));
  }

  lemma OneMore(kept: set<DomainId>, weight: DomainId -> int, child: DomainId)
    requires child !in kept
    ensures Narrow(Narrow(SumOver(kept, weight)) + weight(child)) == Narrow(SumOver(kept + {child}, weight))
  {
    hide Narrow;
    SumPick(kept + {child}, weight, child);
    assert kept + {child} - {child} == kept;
    NarrowSum(Narrow(SumOver(kept, weight)), SumOver(kept, weight), weight(child), weight(child));
  }

  lemma NotYetSeen(children: seq<DomainId>, i: nat)
    requires i < |children| && multiset(children)[children[i]] <= 1
    ensures children[i] !in children[..i]
  {
    assert children == children[..i] + [children[i]] + children[i + 1..];
  }

  /** The recorded values of the children. */
  method CollectMetrics(metrics: MetricsMap, children: seq<DomainId>, childDomain: Domain) returns (values: seq<int>)
    ensures Elements(values) == RecordedOf(children, childDomain, metrics.View())
  {
    hide Flat;
    values := [];
    var i := 0;
    while i < |children|
      invariant 0 <= i <= |children|
      invariant Elements(values) == RecordedOf(children[..i], childDomain, metrics.View())
    {
      assert children[..i + 1] == children[..i] + [children[i]];
      var metric := metrics.Get(Node(childDomain, children[i]));
      if metric.Some? {
        ElementsOfAppend(values, metric.value);
        values := values + [metric.value];
      }
      i := i + 1;
    }
    assert children[..i] == children;
  }

  /** std::min_element under the given comparison; 0 for an empty vector. */
  method MinElement(values: seq<int>, greatest: bool) returns (best: int)
    ensures best == Extreme(Elements(values), greatest)
    ensures values == [] ==> best == 0
    ensures values != [] ==> best in values && forall v :: v in values ==> if greatest then v <= best else best <= v
  {
    if values == [] {
      return 0;
    }
    best := values[0];
    var i := 1;
    while i < |values|
      invariant 1 <= i <= |values|
      invariant best in values && forall j :: 0 <= j < i ==> if greatest then values[j] <= best else best <= values[j]
    {
      if if greatest then values[i] > best else values[i] < best {
        best := values[i];
      }
      i := i + 1;
    }
    ExtremeIsUnique(Elements(values), greatest, best);
  }

  /** The value of a node in the least-load or greatest-load tree. */
  method Calculate(state: SolvingState, tree: SparseMappingTree, moves: seq<MovementIndex>, metrics: MetricsMap,
                   changed: seq<DomainId>, node: Node, metric: nat, greatest: bool, ghost w: World,
                       ghost nodes: set<Node>)
    returns (val: int)
    requires w.Valid() && w.metrics == state.metricVectors && InTree(tree, w.forest, nodes, node)
    requires node.domain == BIN_DOMAIN ==>
               && (forall s :: s in BinMembers(w, moves, node.id) ==>
                     metric < |state.metricVectors| && s < |state.metricVectors[metric]|)
               && (forall s :: BinMembers(w, moves, node.id)[s] <= 1)
    ensures val == StepValue(Extremum(metric, greatest), w, moves, metrics.View(), metrics.Committed(), node, changed)
  {
    hide Indexes, Considered, Flat, Extreme, World.Valid, AllChildren, ConsideredMembers, BinMembers, RecordedValues;
    hide Narrow;
    HasChildList(tree.Index(), w.forest, nodes, node);
    var children := tree.GetChildrenWithMoves(node, moves);
    TreeChildren(w, tree.Index(), nodes, node);
    if node.domain == BIN_DOMAIN {
      MembersListed(w, children, tree.parentToChildMap[node], moves, node.id);
      val := BinSum(state, metric, children, moves, node.id, greatest, w);
    } else {
      var childDomain := tree.GetChildDomain(node.domain).value;
      SameElements(children, tree.parentToChildMap[node]);
      var values := CollectMetrics(metrics, children, childDomain);
      val := MinElement(values, greatest);
      SameRecorded(w, children, childDomain, node, metrics.View());
    }
  }

  lemma HasChildList(t: TreeIndex, forest: Forest, nodes: set<Node>, node: Node)
    requires Indexes(t, forest, nodes) && node in nodes
    ensures node.domain >= BIN_DOMAIN && node.domain in t.parentToChildDomain && node in t.parentToChild
  {
  }

  lemma MembersListed(w: World, children: seq<DomainId>, fixed: seq<DomainId>, moves: seq<MovementIndex>, bin: DomainId)
    requires multiset(fixed) == multiset(StaticShards(w, bin))
    requires multiset(children) == multiset(fixed) + IncomingTotal(moves, bin)
    ensures multiset(children) == BinMembers(w, moves, bin)
    ensures forall s :: s in children <==> s in BinMembers(w, moves, bin)
    ensures StayingIn(children, moves, bin) == ConsideredMembers(w, moves, bin)
  {
    hide Considered;
    assert forall s :: s in children <==> s in multiset(children);
  }

  lemma SameElements<T>(a: seq<T>, b: seq<T>)
    requires multiset(a) == multiset(b) + multiset{}
    ensures forall x :: x in a <==> x in b
  {
    forall x
      ensures x in a <==> x in b
    {
      assert x in a <==> x in multiset(a);
      assert x in b <==> x in multiset(b);
    }
  }

  lemma SameRecorded(w: World, children: seq<DomainId>, childDomain: Domain, node: Node, view: Values)
    requires forall c :: c in AllChildren(w, node) <==> c.domain == childDomain && c.id in children
    ensures RecordedOf(children, childDomain, view) == RecordedValues(w, node, view)
  {
    hide AllChildren;
    forall id | id in children
      ensures Node(childDomain, id) in AllChildren(w, node)
    {
    }
    forall c | c in AllChildren(w, node)
      ensures c == Node(childDomain, c.id)
    {
    }
  }

  /** The static child list of a node names its children in the forest; for a bin, its home shards. */
  lemma TreeChildren(w: World, t: TreeIndex, nodes: set<Node>, node: Node)
    requires w.Valid() && Indexes(t, w.forest, nodes) && node in nodes
    ensures node.domain == BIN_DOMAIN ==> multiset(t.parentToChild[node]) == multiset(StaticShards(w, node.id))
    ensures forall c :: c in AllChildren(w, node) <==>
              c.domain == t.parentToChildDomain[node.domain] && c.id in t.parentToChild[node]
  {
    var list := t.parentToChild[node];
    assert IsListOf(w.forest, node, t.parentToChildDomain[node.domain], list);
    forall c
      ensures c in AllChildren(w, node) <==> c.domain == t.parentToChildDomain[node.domain] && c.id in list
    {
      assert ChildOf(w.forest, c, node) <==> c.domain == t.parentToChildDomain[node.domain] && c.id in list;
    }
    if node.domain == BIN_DOMAIN {
      forall s
        ensures s in list <==> s in StaticShards(w, node.id)
      {
        assert s in list <==> ChildOf(w.forest, Node(SHARD_DOMAIN, s), node);
      }
      DistinctMultiset(list, StaticShards(w, node.id));
    }
  }

  lemma {:induction false} DistinctMultiset<T>(xs: seq<T>, S: set<T>)
    requires NoDuplicates(xs) && forall x :: x in xs <==> x in S
    ensures multiset(xs) == multiset(S)
  {
    if xs == [] {
      assert S == {};
    } else {
      var front, last := xs[..|xs| - 1], xs[|xs| - 1];
      assert xs == front + [last];
      assert forall x :: x in front <==> x in S - {last};
      DistinctMultiset(front, S - {last});
      assert last in S;
      assert multiset(S) == multiset(S - {last}) + multiset{last};
    }
  }
}
