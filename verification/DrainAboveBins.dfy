/**
 What a drain constraint counts above the bins.  Its operator adds one for each
 child whose value was written, so a rack, say, gains one where it loses a shard.
 */
module DrainAboveBins {
  import opened Basics
  import opened Sums
  import opened Placement
  import opened Movements
  import opened MappingTree
  import opened Committable
  import opened Evaluation
  import opened Propagation
  import opened State
  import opened Constraints

  const COUNT := ShardCount(AFTER)

  ghost function Before(w: World, moves: ShardBins): Config {
    Config(w.home, moves)
  }

  ghost function After(w: World, moves: ShardBins, shard: DomainId, nextBin: DomainId): Config {
    Config(w.home, moves[shard := nextBin])
  }

  ghost predicate CountTree(w: World, nodes: set<Node>) {
    && Rising(w.forest)
    && forall n :: n in nodes ==> n.domain >= BIN_DOMAIN && HasChildren(w.forest, nodes, n)
  }

  /** The values that a count tree records after evaluating on top of `committed`. */
  ghost predicate CountLayer(w: World, nodes: set<Node>, committed: Values, canary: Values, after: Config) {
    && OnlyChanges(committed, canary)
    && (forall n :: n in nodes && n.domain == BIN_DOMAIN ==> NodeOk(COUNT, w, n, committed + canary, after))
    && (forall n :: n in nodes && n.domain > BIN_DOMAIN ==> Counted(w.forest, nodes, committed, canary, n))
  }

  /** The trial of one unmoved shard away from its home; the counts of the bins were right before. */
  ghost predicate CountTrial(w: World, nodes: set<Node>, committed: Values, canary: Values,
                             moves: ShardBins, shard: DomainId, nextBin: DomainId)
  {
    && CountTree(w, nodes) && CountLayer(w, nodes, committed, canary, After(w, moves, shard, nextBin))
    && shard in w.home && shard !in moves && nextBin != w.home[shard]
    && forall n :: n in nodes && n.domain == BIN_DOMAIN ==> NodeOk(COUNT, w, n, committed, Before(w, moves))
  }

  /** This is the state in which evaluating a count tree leaves it. */
  lemma TrialOfTree(tree: ExpressionTree, moves: ShardBins, shard: DomainId, nextBin: DomainId)
    requires tree.Valid() && tree.op == COUNT && tree.CountsChildren()
    requires shard in tree.world.home && shard !in moves && nextBin != tree.world.home[shard]
    requires tree.Tracks(tree.metricsMap.Committed(), Before(tree.world, moves))
    requires tree.Tracks(tree.metricsMap.View(), After(tree.world, moves, shard, nextBin))
    ensures CountTrial(tree.world, tree.nodes, tree.metricsMap.Committed(), tree.metricsMap.Canary(), moves, shard,
              nextBin)
  {
    hide Indexes, NodeOk, Counted, HasChildren, SolvingState.Valid, OnlyChanges, Flat, World.Valid, Rising, Layered;
  }

  lemma InitialOfTree(tree: ExpressionTree)
    requires tree.Valid() && tree.op == COUNT && tree.CountsChildren() && tree.metricsMap.Committed() == map[]
    requires tree.Tracks(tree.metricsMap.View(), Config(tree.world.home, map[]))
    ensures CountTree(tree.world, tree.nodes)
    ensures CountLayer(tree.world, tree.nodes, map[], tree.metricsMap.Canary(), Config(tree.world.home, map[]))
  {
    hide Indexes, NodeOk, Counted, HasChildren, SolvingState.Valid, OnlyChanges, Flat, World.Valid, Rising, Layered;
  }

  // ----- Trials -----

  ghost function AboveCount(w: World, n: Node, bin: DomainId): int {
    if Above(w.forest, n, bin) then 1 else 0
  }

  lemma LoadShift(w: World, n: Node, moves: ShardBins, shard: DomainId, nextBin: DomainId)
    requires shard in w.home && shard !in moves
    ensures Load(w.forest, WeightOf(COUNT, w), n, After(w, moves, shard, nextBin))
         == Load(w.forest, WeightOf(COUNT, w), n, Before(w, moves)) + AboveCount(w, n, nextBin)
             - AboveCount(w, n, w.home[shard])
  {
    var was := ShareOfShard(w.forest, WeightOf(COUNT, w), n, Before(w, moves));
    var now := ShareOfShard(w.forest, WeightOf(COUNT, w), n, After(w, moves, shard, nextBin));
    hide Above, SumOver;
    SumPick(w.home.Keys, was, shard);
    SumPick(w.home.Keys, now, shard);
    SumExt(w.home.Keys - {shard}, was, now);
  }

  lemma TouchedShift(w: World, n: Node, moves: ShardBins, shard: DomainId, nextBin: DomainId)
    requires shard in w.home && shard !in moves
    ensures Touched(w.forest, n, After(w, moves, shard, nextBin))
            <==> Touched(w.forest, n, Before(w, moves)) || Above(w.forest, n, nextBin)
    ensures Above(w.forest, n, w.home[shard]) ==> Touched(w.forest, n, Before(w, moves))
  {
    hide Above;
    var was, now := Before(w, moves), After(w, moves, shard, nextBin);
    if Touched(w.forest, n, was) {
      var s :| s in was.home
          && (Above(w.forest, n, was.home[s]) || (s in was.moves && Above(w.forest, n, was.moves[s])));
      assert s in now.home && (s in was.moves ==> s in now.moves && now.moves[s] == was.moves[s]);
    }
    if Above(w.forest, n, nextBin) {
      assert shard in now.home && shard in now.moves;
    }
  }

  lemma Shifted(x: int, d: int)
    ensures Narrow(x + d) == Narrow(x) <==> d % TWO_32 == 0
  {
    NarrowCongruent(x + d, x);
  }

  /** The trial writes the two bins of the move and no other bin. */
  lemma BinsWritten(w: World, nodes: set<Node>, committed: Values, canary: Values,
                    moves: ShardBins, shard: DomainId, nextBin: DomainId, n: Node)
    requires CountTrial(w, nodes, committed, canary, moves, shard, nextBin) && n in nodes && n.domain == BIN_DOMAIN
    ensures n in canary <==> Above(w.forest, n, w.home[shard]) || Above(w.forest, n, nextBin)
  {
    hide Touched, Load, Above, Narrow, Counted, CountTree, HasChildren, OnlyChanges;
    LoadShift(w, n, moves, shard, nextBin);
    TouchedShift(w, n, moves, shard, nextBin);
    BinAboveItself(w.forest, n, w.home[shard]);
    BinAboveItself(w.forest, n, nextBin);
    var was, now := Before(w, moves), After(w, moves, shard, nextBin);
    Shifted(Load(w.forest, WeightOf(COUNT, w), n, was), AboveCount(w, n, nextBin) - AboveCount(w, n, w.home[shard]));
    assert NodeOk(COUNT, w, n, committed, was) && NodeOk(COUNT, w, n, committed + canary, now);
    ChangeAt(committed, canary, n);
  }

  lemma BinAboveItself(forest: Forest, n: Node, bin: DomainId)
    requires n.domain == BIN_DOMAIN
    ensures Above(forest, n, bin) <==> n.id == bin
  {
  }

  lemma ChangeAt(committed: Values, canary: Values, n: Node)
    requires OnlyChanges(committed, canary)
    ensures n in canary ==> Lookup(committed, n) != Some(canary[n])
  {
  }

  /** Above the bins, exactly the nodes above one of the two bins are written. */
  lemma {:induction false} NodesWritten(w: World, nodes: set<Node>, committed: Values, canary: Values,
                                        moves: ShardBins, shard: DomainId, nextBin: DomainId, n: Node)
    requires CountTrial(w, nodes, committed, canary, moves, shard, nextBin) && n in nodes
    ensures n in canary <==> Above(w.forest, n, w.home[shard]) || Above(w.forest, n, nextBin)
    decreases n.domain
  {
    hide NodeOk, Above, OnlyChanges, CountLayer, CountTree;
    TreeFacts(w, nodes, committed, canary, moves, shard, nextBin, n);
    if n.domain == BIN_DOMAIN {
      BinsWritten(w, nodes, committed, canary, moves, shard, nextBin, n);
    } else {
      var kids := CanaryChildren(w.forest, nodes, canary, n);
      forall c | c in ChildrenIn(w.forest, nodes, n)
        ensures c in canary <==> Above(w.forest, c, w.home[shard]) || Above(w.forest, c, nextBin)
      {
        NodesWritten(w, nodes, committed, canary, moves, shard, nextBin, c);
      }
      AboveThroughChild(w.forest, nodes, n, w.home[shard]);
      AboveThroughChild(w.forest, nodes, n, nextBin);
      WrittenCount(w, nodes, canary, n, w.home[shard], nextBin);
      CountDiffers(w, nodes, committed, canary, n);
    }
  }

  lemma TreeFacts(w: World, nodes: set<Node>, committed: Values, canary: Values,
                  moves: ShardBins, shard: DomainId, nextBin: DomainId, n: Node)
    requires CountTrial(w, nodes, committed, canary, moves, shard, nextBin) && n in nodes
    ensures Rising(w.forest) && n.domain >= BIN_DOMAIN && HasChildren(w.forest, nodes, n)
    ensures n.domain > BIN_DOMAIN ==> Counted(w.forest, nodes, committed, canary, n)
    ensures forall c :: c in ChildrenIn(w.forest, nodes, n) ==> c in nodes && c.domain < n.domain
  {
    hide NodeOk, Counted, OnlyChanges;
  }

  /** One or two children are written, if any. */
  lemma WrittenCount(w: World, nodes: set<Node>, canary: Values, n: Node, b: DomainId, b': DomainId)
    requires Rising(w.forest) && n.domain > BIN_DOMAIN && HasChildren(w.forest, nodes, n)
    requires forall c :: c in ChildrenIn(w.forest, nodes, n) ==>
               (c in canary <==> Above(w.forest, c, b) || Above(w.forest, c, b'))
    ensures var k := |CanaryChildren(w.forest, nodes, canary, n)|;
            && (Above(w.forest, n, b) || Above(w.forest, n, b') <==> k > 0)
            && k <= AboveCount(w, n, b) + AboveCount(w, n, b')
  {
    var kids, all := CanaryChildren(w.forest, nodes, canary, n), ChildrenIn(w.forest, nodes, n);
    AboveThroughChild(w.forest, nodes, n, b);
    AboveThroughChild(w.forest, nodes, n, b');
    hide Above, HasChildren;
    var one, two := set c | c in all && Above(w.forest, c, b), set c | c in all && Above(w.forest, c, b');
    AtMostOne(one);
    AtMostOne(two);
    assert kids == one + two;
    if Above(w.forest, n, b) {
      var c :| c in all && Above(w.forest, c, b);
      assert c in one;
    }
    if Above(w.forest, n, b') {
      var c :| c in all && Above(w.forest, c, b');
      assert c in two;
    }
    assert |one + two| <= |one| + |two|;
  }

  lemma AtMostOne<T>(S: set<T>)
    requires forall x, y :: x in S && y in S ==> x == y
    ensures |S| <= 1
  {
    if S != {} {
      var x :| x in S;
      assert S == {x};
    }
  }

  /** Adding one or two changes the value, so the node is written. */
  lemma CountDiffers(w: World, nodes: set<Node>, committed: Values, canary: Values, n: Node)
    requires Counted(w.forest, nodes, committed, canary, n) && |CanaryChildren(w.forest, nodes, canary, n)| <= 2
    ensures n in canary <==> CanaryChildren(w.forest, nodes, canary, n) != {}
  {
    var k := |CanaryChildren(w.forest, nodes, canary, n)|;
    if k > 0 && n in committed {
      NarrowCongruent(committed[n] + k, committed[n]);
      assert Narrow(committed[n] + k) != committed[n];
    }
  }

  /**
   Above the bins, a trial keeps a right count right if and only if the node
   does not lie above the shard's home.
   */
  lemma DrainTrialExact(w: World, nodes: set<Node>, committed: Values, canary: Values,
                        moves: ShardBins, shard: DomainId, nextBin: DomainId, n: Node)
    requires CountTrial(w, nodes, committed, canary, moves, shard, nextBin) && n in nodes && n.domain > BIN_DOMAIN
    requires ValueOrZero(committed, n) == NodeValue(COUNT, w, n, Before(w, moves))
    ensures ValueOrZero(committed + canary, n) == NodeValue(COUNT, w, n, After(w, moves, shard, nextBin))
            <==> !Above(w.forest, n, w.home[shard])
  {
    hide NodeOk, Above, CountLayer, CountTree, Load, HasChildren, Rising, Narrow, ChildrenIn, CanaryChildren;
    TreeFacts(w, nodes, committed, canary, moves, shard, nextBin, n);
    forall c | c in ChildrenIn(w.forest, nodes, n)
      ensures c in canary <==> Above(w.forest, c, w.home[shard]) || Above(w.forest, c, nextBin)
    {
      NodesWritten(w, nodes, committed, canary, moves, shard, nextBin, c);
    }
    NodesWritten(w, nodes, committed, canary, moves, shard, nextBin, n);
    WrittenCount(w, nodes, canary, n, w.home[shard], nextBin);
    LoadShift(w, n, moves, shard, nextBin);
    var k := |CanaryChildren(w.forest, nodes, canary, n)|;
    var was := Load(w.forest, WeightOf(COUNT, w), n, Before(w, moves));
    CountedSum(was, k, AboveCount(w, n, nextBin) - AboveCount(w, n, w.home[shard]));
  }

  lemma CountedSum(was: int, k: int, d: int)
    ensures Narrow(Narrow(was) + k) == Narrow(was + d) <==> (k - d) % TWO_32 == 0
  {
    NarrowCongruent(Narrow(was) + k, was + d);
  }

  // ----- The initial evaluation -----

  ghost function NonEmptyChildren(w: World, nodes: set<Node>, n: Node): set<Node> {
    set c | c in ChildrenIn(w.forest, nodes, n) && Touched(w.forest, c, Config(w.home, map[]))
  }

  ghost function HomeLoad(w: World, n: Node): int {
    Load(w.forest, WeightOf(COUNT, w), n, Config(w.home, map[]))
  }

  ghost function HomeLoads(w: World): Node -> int {
    (n: Node) => HomeLoad(w, n)
  }

  lemma {:induction false} SumOfPositives<T(!new)>(S: set<T>, f: T -> int)
    requires forall x :: x in S ==> f(x) >= 1
    ensures SumOver(S, f) >= |S|
    ensures SumOver(S, f) == |S| <==> forall x :: x in S ==> f(x) == 1
    decreases |S|
  {
    if S != {} {
      var x :| x in S;
      SumPick(S, f, x);
      SumOfPositives(S - {x}, f);
    }
  }

  /** At home, a node holds shards exactly if it was touched, and never more than there are. */
  lemma HomeLoadBounds(w: World, n: Node)
    ensures if Touched(w.forest, n, Config(w.home, map[])) then HomeLoad(w, n) >= 1 else HomeLoad(w, n) == 0
    ensures HomeLoad(w, n) <= |w.home|
  {
    var cfg, weight := Config(w.home, map[]), WeightOf(COUNT, w);
    hide Touched, Load;
    LoadNeverTruncated(w.forest, weight, n, cfg);
    SumConstant(w.home.Keys, weight, 1);
    if Touched(w.forest, n, cfg) {
      HoldsOne(w, n);
    } else {
      UntouchedIsEmpty(w.forest, weight, n, cfg);
    }
  }

  lemma HoldsOne(w: World, n: Node)
    requires Touched(w.forest, n, Config(w.home, map[]))
    ensures HomeLoad(w, n) >= 1
  {
    var share := ShareOfShard(w.forest, WeightOf(COUNT, w), n, Config(w.home, map[]));
    var s :| s in w.home && Above(w.forest, n, w.home[s]);
    hide Above;
    SumPick(w.home.Keys, share, s);
    SumNotNegative(w.home.Keys - {s}, share);
  }

  lemma {:induction false} SumNotNegative<T(!new)>(S: set<T>, f: T -> int)
    requires forall x :: x in S ==> f(x) >= 0
    ensures SumOver(S, f) >= 0
    decreases |S|
  {
    if S != {} {
      var x :| x in S;
      SumPick(S, f, x);
      SumNotNegative(S - {x}, f);
    }
  }

  /** The initial evaluation writes the nodes that hold shards. */
  lemma {:induction false} InitiallyWritten(w: World, nodes: set<Node>, canary: Values, n: Node)
    requires CountTree(w, nodes) && CountLayer(w, nodes, map[], canary, Config(w.home, map[])) && n in nodes
    ensures n in canary <==> Touched(w.forest, n, Config(w.home, map[]))
    decreases n.domain
  {
    var none: Values := map[];
    hide Touched, HasChildren, NodeValue, OnlyChanges, Rising;
    assert none + canary == canary;
    if n.domain == BIN_DOMAIN {
      assert NodeOk(COUNT, w, n, none + canary, Config(w.home, map[]));
    } else {
      assert Counted(w.forest, nodes, none, canary, n);
      NonEmptyWritten(w, nodes, canary, n);
      TouchedThroughChild(w.forest, nodes, n, Config(w.home, map[]));
      assert Touched(w.forest, n, Config(w.home, map[])) <==> NonEmptyChildren(w, nodes, n) != {} by {
        if Touched(w.forest, n, Config(w.home, map[])) {
          var c :| c in ChildrenIn(w.forest, nodes, n) && Touched(w.forest, c, Config(w.home, map[]));
          assert c in NonEmptyChildren(w, nodes, n);
        }
      }
    }
  }

  lemma {:induction false} NonEmptyWritten(w: World, nodes: set<Node>, canary: Values, n: Node)
    requires CountTree(w, nodes) && CountLayer(w, nodes, map[], canary, Config(w.home, map[])) && n in nodes
    ensures CanaryChildren(w.forest, nodes, canary, n) == NonEmptyChildren(w, nodes, n)
    decreases n.domain, 0
  {
    hide Touched, CountLayer;
    forall c | c in ChildrenIn(w.forest, nodes, n)
      ensures c in canary <==> Touched(w.forest, c, Config(w.home, map[]))
    {
      InitiallyWritten(w, nodes, canary, c);
    }
  }

  lemma HomeLoadSum(w: World, nodes: set<Node>, n: Node)
    requires CountTree(w, nodes) && n in nodes && n.domain > BIN_DOMAIN
    ensures HomeLoad(w, n) == SumOver(ChildrenIn(w.forest, nodes, n), HomeLoads(w))
  {
    hide HasChildren, Load, ChildrenIn, Rising, SumOver;
    LoadThroughChildren(w.forest, WeightOf(COUNT, w), nodes, n, Config(w.home, map[]));
    SumExt(ChildrenIn(w.forest, nodes, n), LoadOfNode(w.forest, WeightOf(COUNT, w), Config(w.home, map[])),
        HomeLoads(w));
  }

  /** The load of a node is the number of its non-empty children and their surplus. */
  lemma HomeLoadOfChildren(w: World, nodes: set<Node>, n: Node)
    requires CountTree(w, nodes) && n in nodes && n.domain > BIN_DOMAIN
    ensures HomeLoad(w, n) >= |NonEmptyChildren(w, nodes, n)|
    ensures HomeLoad(w, n) == |NonEmptyChildren(w, nodes, n)|
            <==> forall c :: c in ChildrenIn(w.forest, nodes, n) ==> HomeLoad(w, c) <= 1
    ensures HomeLoad(w, n) - |NonEmptyChildren(w, nodes, n)| < if |w.home| == 0 then 1 else |w.home|
  {
    hide HasChildren, Touched, Load, HomeLoad, ChildrenIn, Rising, CountTree;
    var kids, some := ChildrenIn(w.forest, nodes, n), NonEmptyChildren(w, nodes, n);
    HomeLoadSum(w, nodes, n);
    forall c {
      HomeLoadBounds(w, c);
    }
    SumSubset(some, kids, HomeLoads(w));
    SumOfPositives(some, HomeLoads(w));
    assert some == {} ==> HomeLoad(w, n) == 0;
    HomeLoadBounds(w, n);
  }

  /**
   After the initial evaluation a node above the bins holds the number of its
   non-empty children.  That is its shard count if and only if no child holds
   more than one shard, or the surplus is a multiple of 2^32.
   */
  lemma DrainInitialExact(w: World, nodes: set<Node>, canary: Values, n: Node)
    requires CountTree(w, nodes) && CountLayer(w, nodes, map[], canary, Config(w.home, map[]))
    requires n in nodes && n.domain > BIN_DOMAIN
    ensures ValueOrZero(canary, n) == Narrow(|NonEmptyChildren(w, nodes, n)|)
    ensures ValueOrZero(canary, n) == NodeValue(COUNT, w, n, Config(w.home, map[]))
            <==> (HomeLoad(w, n) - |NonEmptyChildren(w, nodes, n)|) % TWO_32 == 0
    ensures |w.home| <= TWO_32 ==>
              (ValueOrZero(canary, n) == NodeValue(COUNT, w, n, Config(w.home, map[]))
               <==> forall c :: c in ChildrenIn(w.forest, nodes, n) ==> HomeLoad(w, c) <= 1)
  {
    hide CountTree, CountLayer, NonEmptyChildren, HomeLoad, NodeValue, Narrow;
    HomeLoadOfChildren(w, nodes, n);
    InitialValue(w, nodes, canary, n);
    HomeValue(w, n);
    NarrowCongruent(HomeLoad(w, n), |NonEmptyChildren(w, nodes, n)|);
    SmallMultiple(HomeLoad(w, n) - |NonEmptyChildren(w, nodes, n)|);
  }

  lemma SmallMultiple(d: nat)
    ensures d < TWO_32 ==> (d % TWO_32 == 0 <==> d == 0)
  {
  }

  lemma InitialValue(w: World, nodes: set<Node>, canary: Values, n: Node)
    requires CountTree(w, nodes) && CountLayer(w, nodes, map[], canary, Config(w.home, map[]))
    requires n in nodes && n.domain > BIN_DOMAIN
    ensures ValueOrZero(canary, n) == Narrow(|NonEmptyChildren(w, nodes, n)|)
  {
    var none: Values := map[];
    assert none + canary == canary;
    assert Counted(w.forest, nodes, none, canary, n);
    NonEmptyWritten(w, nodes, canary, n);
    hide NonEmptyChildren, CountTree, CountLayer;
  }

  lemma HomeValue(w: World, n: Node)
    ensures NodeValue(COUNT, w, n, Config(w.home, map[])) == Narrow(HomeLoad(w, n))
  {
  }

  // ----- An input -----

  /** A rack with two bins and one shard, which is at home in the first bin. */
  ghost function OneRack(): World {
    World(map[Node(0, 0) := Node(1, 0), Node(1, 0) := Node(2, 0), Node(1, 1) := Node(2, 0)], map[0 := 0], [])
  }

  lemma RackLoads(n: Node, moves: ShardBins)
    requires n in {Node(1, 0), Node(1, 1), Node(2, 0)} && moves in {map[], map[0 := 1]}
    ensures var w := OneRack();
            Load(w.forest, WeightOf(COUNT, w), n, Before(w, moves))
            == if n == Node(2, 0) then 1 else if moves == map[] then 1 - n.id else n.id
    ensures Touched(OneRack().forest, n, Before(OneRack(), moves)) <==> n != Node(1, 1) || moves != map[]
  {
    var w := OneRack();
    var cfg := Before(w, moves);
    assert AncestorAt(w.forest, Node(2, 0), 2) == Some(Node(2, 0));
    assert Above(w.forest, Node(2, 0), 0) && Above(w.forest, Node(2, 0), 1);
    assert Above(w.forest, Node(1, 0), 0) && !Above(w.forest, Node(1, 0), 1);
    assert Above(w.forest, Node(1, 1), 1) && !Above(w.forest, Node(1, 1), 0);
    hide Above;
    assert cfg.home.Keys == {0};
    var only: set<DomainId> := {0};
    SumPick(only, ShareOfShard(w.forest, WeightOf(COUNT, w), n, cfg), 0);
    assert only - {0} == {};
    assert 0 in cfg.home;
  }

  const RACK_NODES := {Node(1, 0), Node(1, 1), Node(2, 0)}
  const RACK_COMMITTED: Values := map[Node(1, 0) := 1, Node(2, 0) := 1]
  const RACK_CANARY: Values := map[Node(1, 0) := 0, Node(1, 1) := 1, Node(2, 0) := 3]

  lemma RackBins(n: Node)
    requires n in RACK_NODES
    ensures NodeOk(COUNT, OneRack(), n, RACK_COMMITTED, Before(OneRack(), map[]))
    ensures n != Node(2, 0) ==> NodeOk(COUNT, OneRack(), n, RACK_COMMITTED + RACK_CANARY, After(OneRack(), map[], 0, 1))
    ensures n == Node(2, 0) ==> NodeValue(COUNT, OneRack(), n, After(OneRack(), map[], 0, 1)) == 1
    ensures n == Node(2, 0) ==> NodeValue(COUNT, OneRack(), n, Before(OneRack(), map[])) == 1
  {
    var none: ShardBins := map[];
    assert none[0 := 1] == map[0 := 1] && 0 in none[0 := 1];
    RackLoads(n, map[]);
    RackLoads(n, map[0 := 1]);
    hide Touched, Load, Above;
  }

  lemma RackHome()
    ensures OneRack().home == map[0 := 0]
  {
  }

  lemma RackEdges(c: Node)
    ensures c in OneRack().forest <==> c in {Node(0, 0), Node(1, 0), Node(1, 1)}
    ensures c in OneRack().forest ==> OneRack().forest[c] == if c.domain == 0 then Node(1, 0) else Node(2, 0)
  {
  }

  lemma RackTree()
    ensures CountTree(OneRack(), RACK_NODES)
    ensures ChildrenIn(OneRack().forest, RACK_NODES, Node(2, 0)) == {Node(1, 0), Node(1, 1)}
  {
    hide OneRack;
    forall c {
      RackEdges(c);
    }
    hide Rising;
    RackRises();
  }

  lemma RackRises()
    ensures Rising(OneRack().forest)
  {
    hide OneRack;
    forall c {
      RackEdges(c);
    }
  }

  lemma RackCounted()
    ensures OnlyChanges(RACK_COMMITTED, RACK_CANARY)
    ensures Counted(OneRack().forest, RACK_NODES, RACK_COMMITTED, RACK_CANARY, Node(2, 0))
  {
    RackTree();
    hide OneRack, ChildrenIn, CountTree;
    assert CanaryChildren(OneRack().forest, RACK_NODES, RACK_CANARY, Node(2, 0)) == {Node(1, 0), Node(1, 1)};
    NarrowExact(3);
  }

  /** Moving the shard to the other bin makes the rack count three instead of one. */
  lemma RackCountsThree()
    ensures CountTrial(OneRack(), RACK_NODES, RACK_COMMITTED, RACK_CANARY, map[], 0, 1)
    ensures RACK_COMMITTED[Node(2, 0)] == NodeValue(COUNT, OneRack(), Node(2, 0), Before(OneRack(), map[]))
    ensures (RACK_COMMITTED + RACK_CANARY)[Node(2, 0)] == 3
    ensures NodeValue(COUNT, OneRack(), Node(2, 0), After(OneRack(), map[], 0, 1)) == 1
  {
    hide NodeOk, Touched, Load, Above, Counted, CountTree, OnlyChanges, NodeValue, OneRack;
    RackTree();
    RackCounted();
    assert After(OneRack(), map[], 0, 1).home == OneRack().home;
    RackHome();
    forall n | n in RACK_NODES
      ensures NodeOk(COUNT, OneRack(), n, RACK_COMMITTED, Before(OneRack(), map[]))
      ensures n != Node(2, 0) ==>
                NodeOk(COUNT, OneRack(), n, RACK_COMMITTED + RACK_CANARY, After(OneRack(), map[], 0, 1))
    {
      RackBins(n);
    }
    RackBins(Node(2, 0));
  }
}
