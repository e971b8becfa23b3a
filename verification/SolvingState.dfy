/** The problem instance: the layered domain tree, the metrics and the shared weight ledger. */
module State {
  import opened Basics
  import opened Sums
  import opened Placement
  import opened Movements
  import opened MappingTree
  import opened Committable
  import opened Evaluation

  /** domainMapping[d][p] lists the nodes of domain d whose parent is node p of domain d + 1. */
  type DomainMapping = seq<seq<seq<DomainId>>>

  ghost predicate Lists(mapping: DomainMapping, child: Node, parent: Node) {
    && child.domain < |mapping| && parent.domain == child.domain + 1
    && parent.id < |mapping[child.domain]|
    && child.id in mapping[child.domain][parent.id]
  }

  /** No node is listed under two parents or twice under one. */
  ghost predicate IsForestMapping(mapping: DomainMapping) {
    && (forall c, p, q :: Lists(mapping, c, p) && Lists(mapping, c, q) ==> p == q)
    && (forall d, p :: 0 <= d < |mapping| && 0 <= p < |mapping[d]| ==> NoDuplicates(mapping[d][p]))
  }

  ghost function ListedNodes(mapping: DomainMapping): set<Node> {
    set d: nat, p: nat, i: nat | d < |mapping| && p < |mapping[d]| && i < |mapping[d][p]| :: Node(d, mapping[d][p][i])
  }

  ghost function ParentNodes(mapping: DomainMapping): set<Node> {
    if mapping == [] then {}
    else
      var d := |mapping| - 1;
      ParentNodes(mapping[..d]) + LayerNodes(d + 1, |mapping[d]|)
  }

  ghost function LayerNodes(domain: Domain, count: nat): set<Node> {
    if count == 0 then {} else LayerNodes(domain, count - 1) + {Node(domain, count - 1)}
  }

  lemma {:induction false} InLayerNodes(domain: Domain, count: nat, n: Node)
    ensures n in LayerNodes(domain, count) <==> n.domain == domain && n.id < count
  {
    if count > 0 {
      InLayerNodes(domain, count - 1, n);
    }
  }

  lemma {:induction false} InParentNodes(mapping: DomainMapping, n: Node)
    ensures n in ParentNodes(mapping) <==> 1 <= n.domain <= |mapping| && n.id < |mapping[n.domain - 1]|
  {
    if mapping != [] {
      var d := |mapping| - 1;
      InParentNodes(mapping[..d], n);
      InLayerNodes(d + 1, |mapping[d]|, n);
    }
  }

  ghost function ParentIn(mapping: DomainMapping, child: Node): Node {
    if exists p :: Lists(mapping, child, p) then var p :| Lists(mapping, child, p); p else child
  }

  ghost function ForestOf(mapping: DomainMapping): Forest {
    map c | c in ListedNodes(mapping) :: ParentIn(mapping, c)
  }

  ghost function HomesOf(forest: Forest): ShardBins {
    var shards := set c | c in forest && c.domain == SHARD_DOMAIN :: c.id;
    map s | s in shards :: if Node(SHARD_DOMAIN, s) in forest then forest[Node(SHARD_DOMAIN, s)].id else 0
  }

  lemma ForestOfMapping(mapping: DomainMapping, c: Node, p: Node)
    requires IsForestMapping(mapping)
    ensures ChildOf(ForestOf(mapping), c, p) <==> Lists(mapping, c, p)
  {
    if Lists(mapping, c, p) {
      var i :| 0 <= i < |mapping[c.domain][p.id]| && mapping[c.domain][p.id][i] == c.id;
      assert c in ListedNodes(mapping);
    }
    if c in ListedNodes(mapping) {
      var d: nat, q: nat, i: nat :| d < |mapping| && q < |mapping[d]| && i < |mapping[d][q]|
          && c == Node(d, mapping[d][q][i]);
      assert Lists(mapping, c, Node(d + 1, q));
    }
  }

  lemma MappingIsForest(mapping: DomainMapping)
    requires IsForestMapping(mapping)
    ensures var forest := ForestOf(mapping);
            && Layered(forest) && Complete(forest, ParentNodes(mapping))
            && (forall c, p :: ChildOf(forest, c, p) <==> Lists(mapping, c, p))
  {
    var forest := ForestOf(mapping);
    forall c, p
      ensures ChildOf(forest, c, p) <==> Lists(mapping, c, p)
    {
      ForestOfMapping(mapping, c, p);
    }
    forall c | c in forest
      ensures forest[c].domain == c.domain + 1 && forest[c] in ParentNodes(mapping)
    {
      assert ChildOf(forest, c, forest[c]);
      assert Lists(mapping, c, forest[c]);
      InParentNodes(mapping, forest[c]);
    }
  }

  lemma WorldIsValid(mapping: DomainMapping, metrics: seq<seq<int>>)
    requires IsForestMapping(mapping)
    ensures var forest := ForestOf(mapping); World(forest, HomesOf(forest), metrics).Valid()
  {
    MappingIsForest(mapping);
    var forest := ForestOf(mapping);
    var home := HomesOf(forest);
    hide ForestOf;
    forall s
      ensures s in home <==> Node(SHARD_DOMAIN, s) in forest
      ensures s in home ==> forest[Node(SHARD_DOMAIN, s)] == Node(BIN_DOMAIN, home[s])
    {
      if Node(SHARD_DOMAIN, s) in forest {
        assert Node(SHARD_DOMAIN, s).id == s;
      }
    }
  }

  lemma ListedChildren(mapping: DomainMapping, d: nat, p: nat)
    requires IsForestMapping(mapping) && d < |mapping| && p < |mapping[d]|
    ensures IsChildList(ForestOf(mapping), Node(d + 1, p), mapping[d][p])
  {
    MappingIsForest(mapping);
    forall id
      ensures id in mapping[d][p] <==> ChildOf(ForestOf(mapping), Node(d, id), Node(d + 1, p))
    {
      assert Lists(mapping, Node(d, id), Node(d + 1, p)) <==> id in mapping[d][p];
    }
  }

  lemma NoParentNodes()
    ensures ParentNodes([]) == {}
  {
  }

  lemma BinNodes(mapping: DomainMapping)
    ensures forall b: DomainId :: Node(BIN_DOMAIN, b) in ParentNodes(mapping) <==> mapping != [] && b < |mapping[0]|
  {
    forall b: DomainId {
      InParentNodes(mapping, Node(BIN_DOMAIN, b));
    }
  }

  lemma ParentNodesAppend(mapping: DomainMapping, d: nat)
    requires d < |mapping|
    ensures |mapping[..d + 1]| == d + 1 && mapping[..d + 1][..d] == mapping[..d]
    ensures ParentNodes(mapping[..d + 1]) == ParentNodes(mapping[..d]) + LayerNodes(d + 1, |mapping[d]|)
  {
  }

  // ----- When the tree represents a forest -----

  /** The child lists of the mapping are the ones in the index. */
  ghost predicate HoldsLists(t: TreeIndex, mapping: DomainMapping) {
    forall d: nat, p: nat :: d < |mapping| && p < |mapping[d]| ==> ListAtNode(t, Node(d + 1, p), mapping[d][p])
  }

  ghost predicate ListAtNode(t: TreeIndex, n: Node, children: seq<DomainId>) {
    n in t.parentToChild && t.parentToChild[n] == children
  }

  /** The lists of one more domain were added to the index. */
  ghost predicate LayerAdded(was: TreeIndex, now: TreeIndex, childDomain: Domain, lists: seq<seq<DomainId>>) {
    && (forall p: nat :: p < |lists| ==> ListAtNode(now, Node(childDomain + 1, p), lists[p]))
    && (forall n: Node, children :: n.domain != childDomain + 1 && ListAtNode(was, n, children) ==>
        ListAtNode(now, n, children))
  }

  lemma ListsAppend(was: TreeIndex, now: TreeIndex, mapping: DomainMapping, d: nat)
    requires d < |mapping| && HoldsLists(was, mapping[..d]) && LayerAdded(was, now, d, mapping[d])
    ensures HoldsLists(now, mapping[..d + 1])
  {
    forall e: nat, p: nat | e < d + 1 && p < |mapping[e]|
      ensures ListAtNode(now, Node(e + 1, p), mapping[e][p])
    {
      if e < d {
        assert mapping[..d][e] == mapping[e];
        assert ListAtNode(was, Node(e + 1, p), mapping[e][p]);
      }
    }
  }

  /** An index with these lists represents no forest at all if some node is listed twice. */
  lemma ForestNeeded(t: TreeIndex, mapping: DomainMapping, forest: Forest, nodes: set<Node>)
    requires HoldsLists(t, mapping) && Represents(t, forest, nodes)
    ensures IsForestMapping(mapping)
  {
    hide ParentsMatch;
    forall d, p | 0 <= d < |mapping| && 0 <= p < |mapping[d]|
      ensures NoDuplicates(mapping[d][p])
      ensures forall id :: id in mapping[d][p] ==> ChildOf(forest, Node(d, id), Node(d + 1, p))
    {
      var n := Node(d + 1, p);
      assert ListAtNode(t, n, mapping[d][p]);
      assert IsChildList(forest, n, t.parentToChild[n]);
    }
    forall c, p, q | Lists(mapping, c, p) && Lists(mapping, c, q)
      ensures p == q
    {
      assert ChildOf(forest, c, p) && ChildOf(forest, c, q) by {
        assert c == Node(c.domain, c.id) && p == Node(c.domain + 1, p.id) && q == Node(c.domain + 1, q.id);
      }
    }
  }

  class SolvingState {
    const metricVectors: seq<seq<int>>
    const numBins: nat
    const assignmentTree: SparseMappingTree
    const binWeightMap: CommittableMap<DomainId, int>
    const totalWeight: CommittableKey<int>
    ghost const world: World
    ghost const nodes: set<Node>

    ghost predicate Valid()
      reads assignmentTree
    {
      && world.Valid() && Layered(world.forest)
      && Represents(assignmentTree.Index(), world.forest, nodes) && Complete(world.forest, nodes)
      && world.metrics == metricVectors
      && (forall b: DomainId :: Node(BIN_DOMAIN, b) in nodes <==> b < numBins)
    }

    /** The state is valid, its tree a forest, exactly if the mapping lists no node twice. */
    constructor (metricVectors: seq<seq<int>>, domainMapping: DomainMapping)
      ensures Valid() <==> IsForestMapping(domainMapping)
      ensures HoldsLists(assignmentTree.Index(), domainMapping)
      ensures fresh(assignmentTree) && fresh(binWeightMap) && fresh(totalWeight)
      ensures this.metricVectors == metricVectors
      ensures numBins == if domainMapping == [] then 0 else |domainMapping[0]|
      ensures Valid() ==> forall c, p :: ChildOf(world.forest, c, p) <==> Lists(domainMapping, c, p)
      ensures binWeightMap.committedMap == map[] && binWeightMap.canaryMap == map[]
      ensures totalWeight.committedVal == None && totalWeight.canaryVal == None
    {
      hide ForestOf, HomesOf, IsForestMapping, Represents, ParentNodes, Lists, Complete, World.Valid, HoldsLists;
      this.metricVectors := metricVectors;
      numBins := if domainMapping == [] then 0 else |domainMapping[0]|;
      assignmentTree := new SparseMappingTree();
      binWeightMap := new CommittableMap<DomainId, int>();
      totalWeight := new CommittableKey<int>();
      ghost var forest := ForestOf(domainMapping);
      world := World(forest, HomesOf(forest), metricVectors);
      nodes := ParentNodes(domainMapping);
      new;
      AddDomains(domainMapping);
      if IsForestMapping(domainMapping) {
        MappingIsForest(domainMapping);
        WorldIsValid(domainMapping, metricVectors);
        BinNodes(domainMapping);
      } else if Valid() {
        ForestNeeded(assignmentTree.Index(), domainMapping, world.forest, nodes);
      }
    }

    method AddDomains(domainMapping: DomainMapping)
      requires assignmentTree.Index() == EMPTY_TREE
      modifies assignmentTree
      ensures HoldsLists(assignmentTree.Index(), domainMapping)
      ensures IsForestMapping(domainMapping) ==>
                Represents(assignmentTree.Index(), ForestOf(domainMapping), ParentNodes(domainMapping))
    {
      ghost var forest, isForest := ForestOf(domainMapping), IsForestMapping(domainMapping);
      if isForest {
        MappingIsForest(domainMapping);
        forall d, p | 0 <= d < |domainMapping| && 0 <= p < |domainMapping[d]|
          ensures IsChildList(forest, Node(d + 1, p), domainMapping[d][p])
        {
          ListedChildren(domainMapping, d, p);
        }
      }
      EmptyRepresents(forest);
      NoParentNodes();
      hide ForestOf, Represents, IsChildList, Layered, ParentNodes, IsForestMapping;
      ghost var done: set<Node> := {};
      var d := 0;
      while d < |domainMapping|
        invariant 0 <= d <= |domainMapping|
        invariant isForest ==> Represents(assignmentTree.Index(), forest, done)
        invariant Dense(assignmentTree.Index()) && HoldsLists(assignmentTree.Index(), domainMapping[..d])
        invariant done == ParentNodes(domainMapping[..d])
      {
        ghost var was := assignmentTree.Index();
        done := AddDomainInternal(d, domainMapping[d], forest, done, isForest);
        ParentNodesAppend(domainMapping, d);
        ListsAppend(was, assignmentTree.Index(), domainMapping, d);
        d := d + 1;
      }
      assert domainMapping[..d] == domainMapping;
    }

    method AddDomainInternal(childDomain: Domain, parentChildMap: seq<seq<DomainId>>, ghost forest: Forest,
                             ghost done: set<Node>, ghost isForest: bool)
      returns (ghost now: set<Node>)
      requires Dense(assignmentTree.Index())
      requires isForest ==> Represents(assignmentTree.Index(), forest, done) && Layered(forest)
      requires isForest ==>
                 forall p :: 0 <= p < |parentChildMap| ==>
                     IsChildList(forest, Node(childDomain + 1, p), parentChildMap[p])
      modifies assignmentTree
      ensures isForest ==> Represents(assignmentTree.Index(), forest, now)
      ensures now == done + LayerNodes(childDomain + 1, |parentChildMap|)
      ensures Dense(assignmentTree.Index())
                && LayerAdded(old(assignmentTree.Index()), assignmentTree.Index(), childDomain, parentChildMap)
    {
      hide Represents, IsChildList, Layered, AddParents;
      now := done;
      var parentId := 0;
      while parentId < |parentChildMap|
        invariant 0 <= parentId <= |parentChildMap|
        invariant isForest ==> Represents(assignmentTree.Index(), forest, now)
        invariant Dense(assignmentTree.Index())
        invariant LayerAdded(old(assignmentTree.Index()), assignmentTree.Index(), childDomain,
                    parentChildMap[..parentId])
        invariant now == done + LayerNodes(childDomain + 1, parentId)
      {
        var parent := Node(childDomain + 1, parentId);
        if isForest {
          MappedRepresents(assignmentTree.Index(), forest, now, parent, parentChildMap[parentId]);
        }
        assignmentTree.AddMapping(parent, childDomain, parentChildMap[parentId]);
        now := now + {parent};
        parentId := parentId + 1;
      }
      assert parentChildMap[..parentId] == parentChildMap;
    }

    /** The total weight as read by the solver: get().value_or(0). */
    function Total(): int
      reads totalWeight
    {
      totalWeight.Get().GetOr(0)
    }

    function BinTotal(bin: DomainId): int
      reads binWeightMap
    {
      binWeightMap.Get(bin).GetOr(0)
    }

    function GetMovementMap(): MovementIndex {
      NO_MOVES
    }

    function GetShardMetric(metric: nat, shard: DomainId): int
      requires metric < |metricVectors| && shard < |metricVectors[metric]|
    {
      metricVectors[metric][shard]
    }
  }
}
