/**
 The load balancing constraint's two trees: the least and the greatest load in
 the scope, each with a root over the scope that lies several domains higher.
 */
module Balancing {
  import opened Basics
  import opened Sums
  import opened Placement
  import opened Movements
  import opened MappingTree
  import opened Committable
  import opened Evaluation
  import opened Propagation
  import opened Trials
  import opened State
  import opened Constraints

  /** SolvingState::kDomainLimit, the domain of the root. */
  const DOMAIN_LIMIT: Domain := 10
  const ROOT := Node(DOMAIN_LIMIT, 0)

  // ----- The forest of a rooted tree -----

  /** The edges below the scope's domain, and the root as the parent of the scope's nodes. */
  ghost function Rooted(forest: Forest, domain: Domain, scope: seq<DomainId>): Forest {
    (map c | c in forest && c.domain < domain :: forest[c]) + (map c | c in NodesOf(domain, scope) :: ROOT)
  }

  ghost function RootedWorld(w: World, domain: Domain, scope: seq<DomainId>): World {
    World(Rooted(w.forest, domain, scope), w.home, w.metrics)
  }

  lemma RootedEdges(forest: Forest, domain: Domain, scope: seq<DomainId>)
    ensures forall c, p :: ChildOf(Rooted(forest, domain, scope), c, p) <==>
              if c.domain == domain then c.id in scope && p == ROOT else c.domain < domain && ChildOf(forest, c, p)
  {
    forall c
      ensures c in NodesOf(domain, scope) <==> c.domain == domain && c.id in scope
    {
      InNodesOf(domain, scope, c);
    }
  }

  lemma RootedRises(forest: Forest, domain: Domain, scope: seq<DomainId>)
    requires Layered(forest) && BIN_DOMAIN <= domain < DOMAIN_LIMIT
    ensures Rising(Rooted(forest, domain, scope))
  {
    var rooted := Rooted(forest, domain, scope);
    RootedEdges(forest, domain, scope);
    hide Rooted;
    forall c | c in rooted
      ensures if c.domain == domain then rooted[c] == ROOT
              else c.domain < domain && rooted[c].domain == c.domain + 1
    {
      assert ChildOf(rooted, c, rooted[c]);
    }
  }

  lemma RootedWorldValid(w: World, domain: Domain, scope: seq<DomainId>)
    requires w.Valid() && Layered(w.forest) && BIN_DOMAIN <= domain < DOMAIN_LIMIT
    ensures RootedWorld(w, domain, scope).Valid()
  {
    RootedRises(w.forest, domain, scope);
    RootedEdges(w.forest, domain, scope);
    var rooted := Rooted(w.forest, domain, scope);
    hide Rooted;
    forall s: DomainId
      ensures s in w.home <==> Node(SHARD_DOMAIN, s) in rooted
      ensures s in w.home ==> rooted[Node(SHARD_DOMAIN, s)] == Node(BIN_DOMAIN, w.home[s])
    {
      var c := Node(SHARD_DOMAIN, s);
      if c in rooted {
        assert ChildOf(rooted, c, rooted[c]);
      }
      if s in w.home {
        assert ChildOf(w.forest, c, Node(BIN_DOMAIN, w.home[s]));
        assert ChildOf(rooted, c, Node(BIN_DOMAIN, w.home[s]));
      }
    }
  }

  /** The nodes at or below the scope, with the root on top, form a tree in which only the root skips domains. */
  lemma RootedShape(op: Operator, forest: Forest, reached: set<Node>, domain: Domain, scope: seq<DomainId>)
    requires op.Extremum? && Layered(forest) && BIN_DOMAIN <= domain < DOMAIN_LIMIT
    requires forall n :: n in reached ==> BIN_DOMAIN <= n.domain <= domain && HasChildren(forest, reached, n)
    requires forall id: DomainId :: Node(domain, id) in reached <==> id in scope
    ensures TreeShape(op, Rooted(forest, domain, scope), reached + {ROOT}, domain, DOMAIN_LIMIT)
  {
    hide Rooted, Rising, HasChildren, Layered;
    var rooted, nodes := Rooted(forest, domain, scope), reached + {ROOT};
    RootedRises(forest, domain, scope);
    forall n | n in nodes
      ensures HasChildren(rooted, nodes, n)
      ensures n in rooted && rooted[n] in nodes ==> rooted[n].domain == Over(domain, DOMAIN_LIMIT, n.domain)
    {
      RootedNode(forest, reached, domain, scope, n);
    }
  }

  lemma RootedNode(forest: Forest, reached: set<Node>, domain: Domain, scope: seq<DomainId>, n: Node)
    requires Layered(forest) && BIN_DOMAIN <= domain < DOMAIN_LIMIT && n in reached + {ROOT}
    requires forall n :: n in reached ==> BIN_DOMAIN <= n.domain <= domain && HasChildren(forest, reached, n)
    requires forall id: DomainId :: Node(domain, id) in reached <==> id in scope
    ensures HasChildren(Rooted(forest, domain, scope), reached + {ROOT}, n)
    ensures var rooted := Rooted(forest, domain, scope);
            n in rooted && rooted[n] in reached + {ROOT} ==> rooted[n].domain == Over(domain, DOMAIN_LIMIT, n.domain)
  {
    var rooted := Rooted(forest, domain, scope);
    RootedEdges(forest, domain, scope);
    hide Rooted;
    forall c | c in rooted && rooted[c] == n && c.domain >= BIN_DOMAIN
      ensures c in reached
    {
      assert ChildOf(rooted, c, n);
      if c.domain == domain {
        assert c == Node(domain, c.id);
      } else {
        assert n in reached && HasChildren(forest, reached, n);
      }
    }
    if n in rooted {
      assert ChildOf(rooted, n, rooted[n]);
    }
  }

  /** createPartialTree followed by addMapping of the root. */
  lemma RootedIndexes(t: TreeIndex, forest: Forest, reached: set<Node>, domain: Domain, scope: seq<DomainId>)
    requires Represents(t, forest, reached) && Layered(forest) && BIN_DOMAIN <= domain < DOMAIN_LIMIT
    requires forall n :: n in reached ==> n.domain <= domain
    ensures Indexes(Mapped(t, ROOT, domain, scope), Rooted(forest, domain, scope), reached + {ROOT})
  {
    var u, rooted, nodes := Mapped(t, ROOT, domain, scope), Rooted(forest, domain, scope), reached + {ROOT};
    hide Rooted, Represents, ParentsMatch, AddParents, IsListOf, ChildrenOfAll, Layered;
    RootList(forest, domain, scope);
    LayeredIndexes(t, forest, reached);
    RootedParents(t.childToParent, forest, reached, domain, scope);
    forall p | p in nodes
      ensures IsListOf(rooted, p, u.parentToChildDomain[p.domain], u.parentToChild[p])
    {
      if p in reached {
        RootedList(t, forest, reached, domain, scope, p);
      }
    }
  }

  lemma RootList(forest: Forest, domain: Domain, scope: seq<DomainId>)
    requires Layered(forest) && domain < DOMAIN_LIMIT
    ensures IsListOf(Rooted(forest, domain, scope), ROOT, domain, scope)
  {
    RootedEdges(forest, domain, scope);
  }

  lemma RootedParents(m: map<Node, map<Domain, DomainId>>, forest: Forest, reached: set<Node>, domain: Domain,
                      scope: seq<DomainId>)
    requires ParentsMatch(m, forest, ChildrenOfAll(forest, reached)) && Layered(forest) && domain < DOMAIN_LIMIT
    requires forall n :: n in reached ==> n.domain <= domain
    ensures ParentsMatch(AddParents(m, ROOT, domain, scope), Rooted(forest, domain, scope),
                         ChildrenOfAll(Rooted(forest, domain, scope), reached + {ROOT}))
  {
    var rooted := Rooted(forest, domain, scope);
    RootedEdges(forest, domain, scope);
    hide Rooted;
    forall c
      ensures c in ChildrenOfAll(forest, reached) <==> c in ChildrenOfAll(rooted, reached)
      ensures c in ChildrenOfAll(forest, reached) ==> rooted[c] == forest[c]
    {
      if c in forest && forest[c] in reached {
        assert ChildOf(rooted, c, forest[c]);
      }
      if c in rooted && rooted[c] in reached {
        assert ChildOf(rooted, c, rooted[c]);
        assert ChildOf(forest, c, rooted[c]);
      }
    }
    assert ParentsMatch(m, rooted, ChildrenOfAll(rooted, reached));
    AddParentsMatch(m, rooted, ChildrenOfAll(rooted, reached), ROOT, domain, scope);
    forall c
      ensures c in ChildrenOfAll(rooted, reached + {ROOT})
              <==> c in ChildrenOfAll(rooted, reached) + Listed(domain, scope)
    {
      if c in rooted {
        assert ChildOf(rooted, c, rooted[c]);
      }
      if c in Listed(domain, scope) {
        assert ChildOf(rooted, c, ROOT);
      }
    }
    assert ChildrenOfAll(rooted, reached + {ROOT}) == ChildrenOfAll(rooted, reached) + Listed(domain, scope);
  }

  lemma RootedList(t: TreeIndex, forest: Forest, reached: set<Node>, domain: Domain, scope: seq<DomainId>, p: Node)
    requires Indexes(t, forest, reached) && Layered(forest) && p in reached && p.domain <= domain < DOMAIN_LIMIT
    ensures IsListOf(Rooted(forest, domain, scope), p, t.parentToChildDomain[p.domain], t.parentToChild[p])
  {
    RootedEdges(forest, domain, scope);
    hide Rooted;
    assert IsListOf(forest, p, t.parentToChildDomain[p.domain], t.parentToChild[p]);
    forall c
      ensures ChildOf(Rooted(forest, domain, scope), c, p) <==> ChildOf(forest, c, p)
    {
    }
  }

  // ----- What lies below a node and below the root -----

  /** Below the scope's domain, climbing is the same in both forests. */
  lemma {:induction false} SameBelow(forest: Forest, domain: Domain, scope: seq<DomainId>, n: Node, high: Domain)
    requires Layered(forest) && n.domain <= high <= domain < DOMAIN_LIMIT
    ensures AncestorAt(Rooted(forest, domain, scope), n, high) == AncestorAt(forest, n, high)
    decreases high - n.domain
  {
    if n.domain < high {
      RootedEdges(forest, domain, scope);
      hide Rooted;
      if n in forest {
        assert ChildOf(forest, n, forest[n]);
        assert ChildOf(Rooted(forest, domain, scope), n, forest[n]);
        SameBelow(forest, domain, scope, forest[n], high);
      }
    }
  }

  ghost predicate InScope(forest: Forest, domain: Domain, scope: seq<DomainId>, bin: DomainId) {
    Reaches(forest, Node(BIN_DOMAIN, bin), domain, scope)
  }

  /** The root lies above the bins that lie below the scope. */
  lemma AboveRoot(forest: Forest, domain: Domain, scope: seq<DomainId>, bin: DomainId)
    requires Layered(forest) && BIN_DOMAIN <= domain < DOMAIN_LIMIT
    ensures Above(Rooted(forest, domain, scope), ROOT, bin) <==> InScope(forest, domain, scope, bin)
  {
    var rooted, b := Rooted(forest, domain, scope), Node(BIN_DOMAIN, bin);
    RootedEdges(forest, domain, scope);
    hide Rooted;
    SameBelow(forest, domain, scope, b, domain);
    if Above(rooted, ROOT, bin) {
      var c := LastStep(rooted, b, ROOT);
      assert ChildOf(rooted, c, ROOT);
      assert c.domain == domain && c == Node(domain, c.id);
    }
    if InScope(forest, domain, scope, bin) {
      var id :| id in scope && AncestorAt(forest, b, domain) == Some(Node(domain, id));
      assert ChildOf(rooted, Node(domain, id), ROOT);
      NextStep(rooted, b, Node(domain, id));
    }
  }

  lemma SameAbove(forest: Forest, domain: Domain, scope: seq<DomainId>, n: Node)
    requires Layered(forest) && BIN_DOMAIN <= n.domain <= domain < DOMAIN_LIMIT
    ensures forall b :: Above(Rooted(forest, domain, scope), n, b) <==> Above(forest, n, b)
  {
    forall b {
      SameBelow(forest, domain, scope, Node(BIN_DOMAIN, b), n.domain);
    }
  }

  lemma SameLoad(op: Operator, w: World, w': World, n: Node, cfg: Config)
    requires w'.metrics == w.metrics
    requires forall b :: Above(w'.forest, n, b) <==> Above(w.forest, n, b)
    ensures Load(w'.forest, WeightOf(op, w'), n, cfg) == Load(w.forest, WeightOf(op, w), n, cfg)
    ensures Touched(w'.forest, n, cfg) <==> Touched(w.forest, n, cfg)
  {
    hide Above;
    SumExt(cfg.home.Keys, ShareOfShard(w'.forest, WeightOf(op, w'), n, cfg),
        ShareOfShard(w.forest, WeightOf(op, w), n, cfg));
    if Touched(w'.forest, n, cfg) || Touched(w.forest, n, cfg) {
      var s :| s in cfg.home
          && (Above(w.forest, n, cfg.home[s]) || (s in cfg.moves && Above(w.forest, n, cfg.moves[s])));
      assert Touched(w'.forest, n, cfg);
    }
  }

  lemma SameBinValue(op: Operator, w: World, domain: Domain, scope: seq<DomainId>, bin: DomainId, cfg: Config)
    requires Layered(w.forest) && BIN_DOMAIN <= domain < DOMAIN_LIMIT
    ensures BinValue(op, RootedWorld(w, domain, scope), bin, cfg) == BinValue(op, w, bin, cfg)
  {
    SameAbove(w.forest, domain, scope, Node(BIN_DOMAIN, bin));
    hide Load, Touched, Rooted, Narrow;
    SameLoad(op, w, RootedWorld(w, domain, scope), Node(BIN_DOMAIN, bin), cfg);
  }

  /** At or below the scope, the rooted tree gives every node its value in the instance. */
  lemma SameNodeOk(op: Operator, w: World, domain: Domain, scope: seq<DomainId>, n: Node, values: Values, cfg: Config)
    requires Layered(w.forest) && BIN_DOMAIN <= n.domain <= domain < DOMAIN_LIMIT
    requires NodeOk(op, RootedWorld(w, domain, scope), n, values, cfg)
    ensures NodeOk(op, w, n, values, cfg)
  {
    var w' := RootedWorld(w, domain, scope);
    hide Load, Touched, Rooted, Narrow, Above, BinValue, UsedBins, Extreme, Layered, WeightOf;
    SameAbove(w.forest, domain, scope, n);
    SameLoad(op, w, w', n, cfg);
    forall b {
      SameBinValue(op, w, domain, scope, b, cfg);
    }
    assert BinValuesBelow(op, w', n, cfg) == BinValuesBelow(op, w, n, cfg);
  }

  // ----- What the root holds -----

  ghost function ScopeValues(domain: Domain, scope: seq<DomainId>, values: Values): set<int> {
    set id | id in scope && Node(domain, id) in values :: values[Node(domain, id)]
  }

  ghost function LoadsInScope(op: Operator, w: World, domain: Domain, scope: seq<DomainId>, cfg: Config): set<int> {
    set b | b in UsedBins(cfg) && InScope(w.forest, domain, scope, b) :: BinValue(op, w, b, cfg)
  }

  /**
   The root has a value once a bin in the scope has been used, and then it is
   the extreme of the recorded values of the scope and of the loads of all used
   bins in the scope.  Every node of the scope has its from-scratch value.
   */
  ghost predicate RootRight(op: Operator, w: World, domain: Domain, scope: seq<DomainId>, values: Values, cfg: Config)
    requires op.Extremum?
  {
    && (forall id: DomainId :: id in scope ==> NodeOk(op, w, Node(domain, id), values, cfg))
    && (ROOT in values <==> exists b :: b in UsedBins(cfg) && InScope(w.forest, domain, scope, b))
    && (ROOT in values ==>
          && IsExtreme(ScopeValues(domain, scope, values), op.greatest, values[ROOT])
          && IsExtreme(LoadsInScope(op, w, domain, scope, cfg), op.greatest, values[ROOT]))
  }

  lemma RootIsExtreme(op: Operator, w: World, domain: Domain, scope: seq<DomainId>, nodes: set<Node>, values: Values,
                      cfg: Config)
    requires op.Extremum? && Layered(w.forest) && BIN_DOMAIN <= domain < DOMAIN_LIMIT
    requires TreeShape(op, Rooted(w.forest, domain, scope), nodes, domain, DOMAIN_LIMIT) && ROOT in nodes
    requires forall id: DomainId :: id in scope ==> Node(domain, id) in nodes
    requires forall n :: n in nodes ==> NodeOk(op, RootedWorld(w, domain, scope), n, values, cfg)
    ensures RootRight(op, w, domain, scope, values, cfg)
  {
    var w' := RootedWorld(w, domain, scope);
    hide NodeOk, Rooted, UsedBins, BinValue, Extreme, HasChildren, IsExtreme, TreeShape, InScope, Above, Layered;
    RootShape(op, w, domain, scope, nodes);
    forall id: DomainId | id in scope
      ensures NodeOk(op, w, Node(domain, id), values, cfg)
    {
      SameNodeOk(op, w, domain, scope, Node(domain, id), values, cfg);
    }
    RootBelow(op, w, domain, scope, cfg);
    RootRecorded(op, w', values, cfg);
    if ROOT in values {
      RootChildren(w, domain, scope, values);
      CachedExtreme(op, w', nodes, values, ROOT, cfg);
    }
  }

  lemma RootShape(op: Operator, w: World, domain: Domain, scope: seq<DomainId>, nodes: set<Node>)
    requires TreeShape(op, Rooted(w.forest, domain, scope), nodes, domain, DOMAIN_LIMIT) && ROOT in nodes
    ensures Rising(Rooted(w.forest, domain, scope)) && HasChildren(Rooted(w.forest, domain, scope), nodes, ROOT)
    ensures forall c :: c in ChildrenIn(Rooted(w.forest, domain, scope), nodes, ROOT) ==> c in nodes
  {
    hide Rooted, Rising, HasChildren;
  }

  /** What is below the root are the used bins of the scope, with their loads. */
  lemma RootBelow(op: Operator, w: World, domain: Domain, scope: seq<DomainId>, cfg: Config)
    requires Layered(w.forest) && BIN_DOMAIN <= domain < DOMAIN_LIMIT
    ensures forall b :: Above(Rooted(w.forest, domain, scope), ROOT, b) <==> InScope(w.forest, domain, scope, b)
    ensures BinValuesBelow(op, RootedWorld(w, domain, scope), ROOT, cfg) == LoadsInScope(op, w, domain, scope, cfg)
  {
    hide Rooted, UsedBins, BinValue;
    forall b
      ensures Above(Rooted(w.forest, domain, scope), ROOT, b) <==> InScope(w.forest, domain, scope, b)
      ensures BinValue(op, RootedWorld(w, domain, scope), b, cfg) == BinValue(op, w, b, cfg)
    {
      AboveRoot(w.forest, domain, scope, b);
      SameBinValue(op, w, domain, scope, b, cfg);
    }
    hide InScope, Above;
  }

  lemma RootRecorded(op: Operator, w: World, values: Values, cfg: Config)
    requires NodeOk(op, w, ROOT, values, cfg)
    ensures ROOT in values <==> exists b :: b in UsedBins(cfg) && Above(w.forest, ROOT, b)
  {
    hide Touched, NodeValue;
    UsedBinBelow(w.forest, ROOT, cfg);
  }

  lemma RootChildren(w: World, domain: Domain, scope: seq<DomainId>, values: Values)
    requires Layered(w.forest) && BIN_DOMAIN <= domain < DOMAIN_LIMIT
    ensures RecordedValues(RootedWorld(w, domain, scope), ROOT, values) == ScopeValues(domain, scope, values)
  {
    var w' := RootedWorld(w, domain, scope);
    RootedEdges(w.forest, domain, scope);
    hide Rooted;
    forall c
      ensures c in AllChildren(w', ROOT) <==> c.domain == domain && c.id in scope
    {
      assert c in AllChildren(w', ROOT) <==> ChildOf(w'.forest, c, ROOT);
    }
    hide AllChildren;
    forall id | id in scope
      ensures Node(domain, id) in AllChildren(w', ROOT)
    {
    }
    forall c | c in AllChildren(w', ROOT)
      ensures c == Node(domain, c.id)
    {
    }
  }

  // ----- The constraint -----

  /** Metric `metric` is known for every shard. */
  ghost predicate MeasuredFor(state: SolvingState, metric: nat) {
    forall s :: s in state.world.home ==> metric < |state.metricVectors| && s < |state.metricVectors[metric]|
  }

  class LoadBalancingConstraint {
    const state: SolvingState
    const domain: Domain
    const domainIds: seq<DomainId>
    const metric: nat
    const minExpressionTree: ExpressionTree
    const maxExpressionTree: ExpressionTree

    /** One rooted tree over the scope, evaluated twice: for the least and for the greatest load. */
    constructor (state: SolvingState, domain: Domain, domainIds: seq<DomainId>, metric: nat)
      requires state.Valid() && domain < DOMAIN_LIMIT && ScopeHasBin(state, domain, domainIds)
                 && MeasuredFor(state, metric)
      ensures Valid() && this.state == state && this.domain == domain && this.domainIds == domainIds
      ensures this.metric == metric
      ensures fresh(minExpressionTree.metricsMap) && fresh(maxExpressionTree.metricsMap)
      ensures Ready(Config(state.world.home, map[]))
      ensures RootsRight(Config(state.world.home, map[])) && RootsBound(Config(state.world.home, map[]))
    {
      hide Represents, Indexes, SolvingState.Valid, ScopeHasBin, ExpressionTree.Valid, ExpressionTree.Tracks, Mapped;
      hide Rooted;
      hide RootedTree, RootRight, Flat, Reaches, DomainsUsed;
      this.state := state;
      this.domain := domain;
      this.domainIds := domainIds;
      this.metric := metric;
      StateComplete(state);
      var partialTree, reached :=
          state.assignmentTree.CreatePartialTree(domain, domainIds, state.world.forest, state.nodes);
      ghost var t := partialTree.Index();
      RootIsNew(t, state, domain, domainIds, reached);
      partialTree.AddMapping(ROOT, domain, domainIds);
      ghost var world := RootedWorld(state.world, domain, domainIds);
      minExpressionTree := new ExpressionTree(state, partialTree, Extremum(metric, false), world, reached
          + {ROOT}, domain, DOMAIN_LIMIT);
      maxExpressionTree := new ExpressionTree(state, partialTree, Extremum(metric, true), world, reached
          + {ROOT}, domain, DOMAIN_LIMIT);
      new;
      RootedTreeValid(minExpressionTree, state, domain, domainIds, t, reached);
      RootedTreeValid(maxExpressionTree, state, domain, domainIds, t, reached);
      Start();
    }

    /** First evaluation of both trees, from the static homes, and its commit. */
    method Start()
      requires Valid() && minExpressionTree.metricsMap.Committed() == map[]
                 && minExpressionTree.metricsMap.Canary() == map[]
      requires maxExpressionTree.metricsMap.Committed() == map[] && maxExpressionTree.metricsMap.Canary() == map[]
      modifies minExpressionTree.metricsMap, maxExpressionTree.metricsMap
      ensures Ready(Config(state.world.home, map[]))
      ensures RootsRight(Config(state.world.home, map[])) && RootsBound(Config(state.world.home, map[]))
    {
      hide ExpressionTree.Valid, ExpressionTree.Tracks, Flat, OnceEach, RootRight, Rooted;
      ghost var evaluated := minExpressionTree.InitializeMetricState(null);
      evaluated := maxExpressionTree.InitializeMetricState(null);
      CommitMoves(Config(state.world.home, map[]));
    }

    ghost predicate Valid()
      reads minExpressionTree.assignmentTree, minExpressionTree.state.assignmentTree
      reads maxExpressionTree.assignmentTree, maxExpressionTree.state.assignmentTree
    {
      && RootedTree(minExpressionTree, state, domain, domainIds) && minExpressionTree.op == Extremum(metric, false)
      && RootedTree(maxExpressionTree, state, domain, domainIds) && maxExpressionTree.op == Extremum(metric, true)
      && minExpressionTree.metricsMap != maxExpressionTree.metricsMap
    }

    /** Both trees have committed the values of the configuration. */
    ghost predicate Ready(cfg: Config)
      reads minExpressionTree.metricsMap, maxExpressionTree.metricsMap
    {
      && minExpressionTree.Tracks(minExpressionTree.metricsMap.Committed(), cfg)
      && maxExpressionTree.Tracks(maxExpressionTree.metricsMap.Committed(), cfg)
    }

    /** What is read from both trees belongs to the configuration. */
    ghost predicate Evaluated(cfg: Config)
      reads minExpressionTree.metricsMap, maxExpressionTree.metricsMap
    {
      && minExpressionTree.Tracks(minExpressionTree.metricsMap.View(), cfg)
      && maxExpressionTree.Tracks(maxExpressionTree.metricsMap.View(), cfg)
    }

    /** The roots hold the least and the greatest load in the scope. */
    ghost predicate RootsRight(cfg: Config)
      requires minExpressionTree.op.Extremum? && maxExpressionTree.op.Extremum?
      reads minExpressionTree.metricsMap, maxExpressionTree.metricsMap
    {
      && RootRight(minExpressionTree.op, state.world, domain, domainIds, minExpressionTree.metricsMap.View(), cfg)
      && RootRight(maxExpressionTree.op, state.world, domain, domainIds, maxExpressionTree.metricsMap.View(), cfg)
    }

    /** Sum of the metric over the shards of a bin, as an int32. */
    ghost function BinLoad(bin: DomainId, cfg: Config): int {
      Narrow(SumOver(ShardsBelow(state.world.forest, Node(BIN_DOMAIN, bin), cfg), Entries(state.metricVectors, metric)))
    }

    ghost predicate UsedInScope(bin: DomainId, cfg: Config) {
      bin in UsedBins(cfg) && InScope(state.world.forest, domain, domainIds, bin)
    }

    /**
     In plain numbers: no used bin of the scope carries less than the root of the
     first tree or more than the root of the second, and some bins carry just that.
     */
    ghost predicate RootsBound(cfg: Config)
      reads minExpressionTree.metricsMap, maxExpressionTree.metricsMap
    {
      var root := Node(10, 0);
      var least, greatest := minExpressionTree.metricsMap.View(), maxExpressionTree.metricsMap.View();
      && (forall b :: UsedInScope(b, cfg) ==>
            root in least && root in greatest && least[root] <= BinLoad(b, cfg) <= greatest[root])
      && (root in least ==> exists b :: UsedInScope(b, cfg) && BinLoad(b, cfg) == least[root])
      && (root in greatest ==> exists b :: UsedInScope(b, cfg) && BinLoad(b, cfg) == greatest[root])
    }

    lemma PlainRoots(cfg: Config)
      requires Valid() && RootsRight(cfg)
      ensures RootsBound(cfg)
    {
      hide ExpressionTree.Valid, ExpressionTree.Tracks, Flat, Rooted, NodeOk, UsedBins, InScope, BinValue, ShardsBelow;
      hide Extreme;
      MetricsOfState();
      forall b
        ensures BinValue(minExpressionTree.op, state.world, b, cfg) == BinLoad(b, cfg)
        ensures BinValue(maxExpressionTree.op, state.world, b, cfg) == BinLoad(b, cfg)
      {
        PlainBinValue(minExpressionTree.op, state.world, b, cfg);
        PlainBinValue(maxExpressionTree.op, state.world, b, cfg);
      }
      PlainRoot(minExpressionTree.op, minExpressionTree.metricsMap.View(), cfg);
      PlainRoot(maxExpressionTree.op, maxExpressionTree.metricsMap.View(), cfg);
    }

    lemma MetricsOfState()
      requires Valid()
      ensures state.world.metrics == state.metricVectors
    {
    }

    lemma PlainRoot(op: Operator, values: Values, cfg: Config)
      requires op.Extremum? && RootRight(op, state.world, domain, domainIds, values, cfg)
      requires forall b :: BinValue(op, state.world, b, cfg) == BinLoad(b, cfg)
      ensures forall b :: UsedInScope(b, cfg) ==>
                ROOT in values && if op.greatest then BinLoad(b, cfg) <= values[ROOT]
                    else values[ROOT] <= BinLoad(b, cfg)
      ensures ROOT in values ==> exists b :: UsedInScope(b, cfg) && BinLoad(b, cfg) == values[ROOT]
    {
      hide NodeOk, UsedBins, InScope, BinValue, BinLoad, ScopeValues;
      forall b | UsedInScope(b, cfg)
        ensures ROOT in values
        ensures BinLoad(b, cfg) in LoadsInScope(op, state.world, domain, domainIds, cfg)
      {
        assert BinValue(op, state.world, b, cfg) in LoadsInScope(op, state.world, domain, domainIds, cfg);
      }
    }

    /** Evaluates a trial in both trees. */
    method CanaryMoves(committedMoves: MovementMap, canaryMoves: MovementMap)
      requires Valid() && Ready(Config(state.world.home, committedMoves.shardToNextBinMap))
      requires TrialMoves(state.world, committedMoves.shardToNextBinMap, canaryMoves.shardToNextBinMap)
      requires MovesAway(state.world, committedMoves.Index()) && MovesAway(state.world, canaryMoves.Index())
      modifies minExpressionTree.metricsMap, maxExpressionTree.metricsMap
      ensures Ready(Config(state.world.home, committedMoves.shardToNextBinMap))
      ensures Evaluated(Config(state.world.home, committedMoves.shardToNextBinMap + canaryMoves.shardToNextBinMap))
      ensures RootsRight(Config(state.world.home, committedMoves.shardToNextBinMap + canaryMoves.shardToNextBinMap))
      ensures RootsBound(Config(state.world.home, committedMoves.shardToNextBinMap + canaryMoves.shardToNextBinMap))
    {
      hide ExpressionTree.Valid, ExpressionTree.Tracks, Flat, OnceEach, RootRight, Rooted;
      TrialInRooted(state.world, domain, domainIds, committedMoves.Index(), canaryMoves.Index());
      ghost var evaluated := minExpressionTree.CanaryMoves(null, committedMoves, canaryMoves);
      evaluated := maxExpressionTree.CanaryMoves(null, committedMoves, canaryMoves);
      EvaluatedRoots(Config(state.world.home, committedMoves.shardToNextBinMap + canaryMoves.shardToNextBinMap));
    }

    /** Keeps what was evaluated. */
    method CommitMoves(ghost cfg: Config)
      requires Valid() && Evaluated(cfg)
      modifies minExpressionTree.metricsMap, maxExpressionTree.metricsMap
      ensures Ready(cfg) && Evaluated(cfg) && RootsRight(cfg) && RootsBound(cfg)
      ensures minExpressionTree.metricsMap.Canary() == map[] && maxExpressionTree.metricsMap.Canary() == map[]
    {
      hide ExpressionTree.Valid, ExpressionTree.Tracks, Flat, RootRight, Rooted;
      minExpressionTree.CommitMoves();
      maxExpressionTree.CommitMoves();
      EvaluatedRoots(cfg);
    }

    lemma EvaluatedRoots(cfg: Config)
      requires Valid() && Evaluated(cfg)
      ensures RootsRight(cfg) && RootsBound(cfg)
    {
      hide ExpressionTree.Tracks, Flat, RootRight, Rooted, ExpressionTree.Valid, LoadBalancingConstraint.RootsBound;
      TrackedRoot(minExpressionTree, state, domain, domainIds, minExpressionTree.metricsMap.View(), cfg);
      TrackedRoot(maxExpressionTree, state, domain, domainIds, maxExpressionTree.metricsMap.View(), cfg);
      PlainRoots(cfg);
    }
  }

  lemma PlainBinValue(op: Operator, w: World, bin: DomainId, cfg: Config)
    requires op.Extremum?
    ensures BinValue(op, w, bin, cfg)
         == Narrow(SumOver(ShardsBelow(w.forest, Node(BIN_DOMAIN, bin), cfg), Entries(w.metrics, op.metric)))
  {
    hide Load, ShardsBelow, Narrow;
    LoadIsPlain(op, w, Node(BIN_DOMAIN, bin), cfg);
  }

  /** A valid tree over the scope with the root on top. */
  ghost predicate RootedTree(tree: ExpressionTree, state: SolvingState, domain: Domain, domainIds: seq<DomainId>)
    reads tree.assignmentTree, tree.state.assignmentTree
  {
    && tree.Valid() && tree.state == state && tree.op.Extremum?
    && Layered(state.world.forest) && BIN_DOMAIN <= domain < DOMAIN_LIMIT
    && tree.world == RootedWorld(state.world, domain, domainIds) && tree.top == domain && tree.root == DOMAIN_LIMIT
    && ROOT in tree.nodes && (forall id: DomainId :: id in domainIds ==> Node(domain, id) in tree.nodes)
  }

  lemma TrackedRoot(tree: ExpressionTree, state: SolvingState, domain: Domain, domainIds: seq<DomainId>,
                    values: Values, cfg: Config)
    requires RootedTree(tree, state, domain, domainIds) && tree.Tracks(values, cfg)
    ensures RootRight(tree.op, state.world, domain, domainIds, values, cfg)
  {
    hide RootRight, Rooted, TreeShape, Indexes, SolvingState.Valid, World.Valid, NodeOk, Layered;
    RootIsExtreme(tree.op, state.world, domain, domainIds, tree.nodes, values, cfg);
  }

  lemma TrialInRooted(w: World, domain: Domain, domainIds: seq<DomainId>, committed: MovementIndex,
                      canary: MovementIndex)
    requires TrialMoves(w, committed.next, canary.next) && MovesAway(w, committed) && MovesAway(w, canary)
    ensures var w' := RootedWorld(w, domain, domainIds);
            TrialMoves(w', committed.next, canary.next) && MovesAway(w', committed) && MovesAway(w', canary)
  {
  }

  /** What the constructor builds is a rooted tree. */
  lemma RootedTreeValid(tree: ExpressionTree, state: SolvingState, domain: Domain, domainIds: seq<DomainId>,
                        t: TreeIndex,
                        reached: set<Node>)
    requires state.Valid() && domain < DOMAIN_LIMIT && ScopeHasBin(state, domain, domainIds)
    requires tree.state == state && tree.op.Extremum? && MeasuredFor(state, tree.op.metric)
    requires Represents(t, state.world.forest, reached)
               && tree.assignmentTree.Index() == Mapped(t, ROOT, domain, domainIds)
    requires forall n: Node :: n in reached <==>
               n.domain in state.assignmentTree.parentToChildDomainMap
                   && Reaches(state.world.forest, n, domain, domainIds)
    requires tree.world == RootedWorld(state.world, domain, domainIds) && tree.nodes == reached + {ROOT}
    requires tree.top == domain && tree.root == DOMAIN_LIMIT
    ensures RootedTree(tree, state, domain, domainIds)
  {
    hide Represents, Indexes, Reaches, Complete, BinInScope, Mapped, Rooted, TreeShape, World.Valid, SolvingState.Valid;
    hide Layered;
    StateComplete(state);
    ScopeTree(state.assignmentTree.Index(), state.world.forest, state.nodes, domain, domainIds, reached);
    RootedIndexes(t, state.world.forest, reached, domain, domainIds);
    RootedShape(tree.op, state.world.forest, reached, domain, domainIds);
    RootedWorldValid(state.world, domain, domainIds);
    BinsOfIndex(t, state.world.forest, reached);
    RootedBins(t, domain, domainIds);
  }

  lemma RootedBins(t: TreeIndex, domain: Domain, domainIds: seq<DomainId>)
    requires HasBins(t)
    ensures HasBins(Mapped(t, ROOT, domain, domainIds))
  {
    var b :| Node(BIN_DOMAIN, b) in t.parentToChild;
    assert Node(BIN_DOMAIN, b) in Mapped(t, ROOT, domain, domainIds).parentToChild;
  }

  /** The partial tree has no node in the root's domain, so addMapping is not refused. */
  lemma RootIsNew(t: TreeIndex, state: SolvingState, domain: Domain, domainIds: seq<DomainId>, reached: set<Node>)
    requires state.Valid() && domain < DOMAIN_LIMIT && ScopeHasBin(state, domain, domainIds)
    requires Represents(t, state.world.forest, reached) && DomainsUsed(t, reached)
    requires forall n: Node :: n in reached <==>
               n.domain in state.assignmentTree.parentToChildDomainMap
                   && Reaches(state.world.forest, n, domain, domainIds)
    ensures DOMAIN_LIMIT !in t.parentToChildDomain
  {
    hide Represents, Reaches, Complete, BinInScope;
    StateComplete(state);
    ScopeTree(state.assignmentTree.Index(), state.world.forest, state.nodes, domain, domainIds, reached);
  }
}
