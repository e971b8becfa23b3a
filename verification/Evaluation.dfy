/**
 What one evaluation of a tree node computes, and why it is right: the value
 written for a node, from its previous value and its changed children, is the
 int32 narrowing of its from-scratch load.
 */
module Evaluation {
  import opened Basics
  import opened Sums
  import opened Placement
  import opened Movements

  datatype MovementConsistency = BEFORE | AFTER | BOTH | DURING

  /** The static data of a solving state. */
  datatype World = World(forest: Forest, home: ShardBins, metrics: seq<seq<int>>) {
    ghost predicate Valid() {
      && Rising(forest)
      && (forall s :: s in home <==> Node(SHARD_DOMAIN, s) in forest)
      && (forall s :: s in home ==> forest[Node(SHARD_DOMAIN, s)] == Node(BIN_DOMAIN, home[s]))
    }

    function Metric(metric: nat, shard: DomainId): int {
      if metric < |metrics| && shard < |metrics[metric]| then metrics[metric][shard] else 0
    }
  }

  datatype Operator =
    | MetricSum(consistency: MovementConsistency)
    | ShardCount(consistency: MovementConsistency)
    | Extremum(metric: nat, greatest: bool)
  {
    /** The load balancing operator always uses AFTER. */
    function Mode(): MovementConsistency {
      if Extremum? then AFTER else consistency
    }
  }

  /** sumOperator always reads metric 0, because its local variable shadows the parameter. */
  function ShardWeight(op: Operator, w: World, shard: DomainId): int {
    match op
    case MetricSum(_) => w.Metric(0, shard)
    case ShardCount(_) => 1
    case Extremum(metric, _) => w.Metric(metric, shard)
  }

  ghost function WeightOf(op: Operator, w: World): DomainId -> int {
    (s: DomainId) => ShardWeight(op, w, s)
  }

  // ----- Membership of a shard in a bin -----

  predicate ShouldConsider(consistency: MovementConsistency, isFutureChild: bool, isMoving: bool) {
    match consistency
    case BEFORE => !isFutureChild
    case AFTER => isFutureChild
    case BOTH => true
    case DURING => isMoving
  }

  ghost predicate IsFutureChild(nexts: seq<ShardBins>, shard: DomainId, bin: DomainId) {
    forall m :: m in nexts && shard in m ==> m[shard] == bin
  }

  ghost predicate IsMoving(nexts: seq<ShardBins>, shard: DomainId) {
    exists m :: m in nexts && shard in m
  }

  ghost predicate Considered(consistency: MovementConsistency, nexts: seq<ShardBins>,
                             shard: DomainId, bin: DomainId) {
    ShouldConsider(consistency, IsFutureChild(nexts, shard, bin), IsMoving(nexts, shard))
  }

  // ----- One evaluation -----

  ghost function BinTerm(op: Operator, w: World, nexts: seq<ShardBins>, bin: DomainId): DomainId -> int {
    (s: DomainId) => if Considered(op.Mode(), nexts, s, bin) then ShardWeight(op, w, s) else -ShardWeight(op, w, s)
  }

  /** Current minus committed value of a child node, as an int32. */
  ghost function ChildDelta(domain: Domain, view: Values, committed: Values): DomainId -> int {
    (id: DomainId) => Narrow(ValueOrZero(view, Node(domain, id)) - ValueOrZero(committed, Node(domain, id)))
  }

  /** The term that one changed child adds to the value of node n. */
  ghost function ChildTerm(op: Operator, w: World, nexts: seq<ShardBins>,
                           view: Values, committed: Values, n: Node): DomainId -> int {
    if n.domain == BIN_DOMAIN then BinTerm(op, w, nexts, n.id)
    else if op.MetricSum? && n.domain > BIN_DOMAIN then ChildDelta(n.domain - 1, view, committed)
    else (id: DomainId) => 1
  }

  /** The shards that getChildren lists for a bin: incoming ones of every movement map and static ones. */
  ghost function BinMembers(w: World, moves: seq<MovementIndex>, bin: DomainId): multiset<DomainId> {
    multiset(StaticShards(w, bin)) + IncomingTotal(moves, bin)
  }

  ghost function StaticShards(w: World, bin: DomainId): set<DomainId> {
    set s | s in w.home && w.home[s] == bin
  }

  ghost function ConsideredMembers(w: World, moves: seq<MovementIndex>, bin: DomainId): set<DomainId> {
    set s | s in BinMembers(w, moves, bin) && Considered(AFTER, Nexts(moves), s, bin)
  }

  ghost function AllChildren(w: World, n: Node): set<Node> {
    ChildrenIn(w.forest, w.forest.Keys, n)
  }

  ghost function RecordedValues(w: World, n: Node, view: Values): set<int> {
    set c | c in AllChildren(w, n) && c in view :: view[c]
  }

  ghost function StepValue(op: Operator, w: World, moves: seq<MovementIndex>,
                           view: Values, committed: Values,
                           n: Node, changed: seq<DomainId>): int {
    if op.Extremum? then
      if n.domain == BIN_DOMAIN then Narrow(SumOver(ConsideredMembers(w, moves, n.id), WeightOf(op, w)))
      else Extreme(RecordedValues(w, n, view), op.greatest)
    else
      Narrow(ValueOrZero(view, n) + SeqSum(changed, ChildTerm(op, w, Nexts(moves), view, committed, n)))
  }

  // ----- The from-scratch value -----

  /** The bins that held or hold a shard, at home or as the target of a move. */
  ghost function UsedBins(cfg: Config): set<DomainId> {
    (set s | s in cfg.home :: cfg.home[s]) + (set s | s in cfg.home && s in cfg.moves :: cfg.moves[s])
  }

  ghost function BinValue(op: Operator, w: World, bin: DomainId, cfg: Config): int {
    Narrow(Load(w.forest, WeightOf(op, w), Node(BIN_DOMAIN, bin), cfg))
  }

  ghost function BinValuesBelow(op: Operator, w: World, n: Node, cfg: Config): set<int> {
    set b | b in UsedBins(cfg) && Above(w.forest, n, b) :: BinValue(op, w, b, cfg)
  }

  /**
   Sums and counts: the total over the shards below the node, as an int32.
   Extremum: above the bins, the least or greatest load of the used bins below.
   */
  ghost function NodeValue(op: Operator, w: World, n: Node, cfg: Config): int {
    if op.Extremum? && n.domain > BIN_DOMAIN then Extreme(BinValuesBelow(op, w, n, cfg), op.greatest)
    else Narrow(Load(w.forest, WeightOf(op, w), n, cfg))
  }

  /** The recorded value of n is the from-scratch value; nodes never touched have no entry. */
  ghost predicate NodeOk(op: Operator, w: World, n: Node, values: Values, cfg: Config) {
    && (n in values <==> Touched(w.forest, n, cfg))
    && (n in values ==> values[n] == NodeValue(op, w, n, cfg))
  }

  lemma RecordedOrZero(op: Operator, w: World, n: Node, values: Values, cfg: Config)
    requires !op.Extremum? || n.domain <= BIN_DOMAIN
    requires NodeOk(op, w, n, values, cfg)
    ensures ValueOrZero(values, n) == NodeValue(op, w, n, cfg)
    ensures Congruent(ValueOrZero(values, n), Load(w.forest, WeightOf(op, w), n, cfg))
  {
    if n !in values {
      UntouchedIsEmpty(w.forest, WeightOf(op, w), n, cfg);
    }
  }

  // ----- Which numbers a load adds up -----

  /** Entry s of a metric vector, for every shard s. */
  ghost function Entries(metrics: seq<seq<int>>, metric: nat): DomainId -> int {
    (s: DomainId) => if metric < |metrics| && s < |metrics[metric]| then metrics[metric][s] else 0
  }

  /** The sum of the metric's entries, or the number, of the shards below a node. */
  ghost function PlainLoad(op: Operator, metrics: seq<seq<int>>, forest: Forest, n: Node, cfg: Config): int {
    match op
    case MetricSum(_) => SumOver(ShardsBelow(forest, n, cfg), Entries(metrics, 0))
    case ShardCount(_) => |ShardsBelow(forest, n, cfg)|
    case Extremum(metric, _) => SumOver(ShardsBelow(forest, n, cfg), Entries(metrics, metric))
  }

  /** Every load adds up the entries that the metric vectors hold for its shards. */
  lemma LoadIsPlain(op: Operator, w: World, n: Node, cfg: Config)
    ensures Load(w.forest, WeightOf(op, w), n, cfg) == PlainLoad(op, w.metrics, w.forest, n, cfg)
  {
    hide Load, ShardsBelow, SumOver;
    var below := ShardsBelow(w.forest, n, cfg);
    LoadOfShards(w.forest, WeightOf(op, w), n, cfg);
    match op {
      case MetricSum(_) =>
        SumExt(below, WeightOf(op, w), Entries(w.metrics, 0));
      case ShardCount(_) =>
        SumConstant(below, WeightOf(op, w), 1);
      case Extremum(metric, _) =>
        SumExt(below, WeightOf(op, w), Entries(w.metrics, metric));
    }
  }

  /** So a bin with a single shard weighs that shard's entry. */
  lemma SingleShardBin(w: World, consistency: MovementConsistency, bin: DomainId, cfg: Config, s: DomainId)
    requires s in cfg.home && 0 < |w.metrics| && s < |w.metrics[0]|
    requires forall x :: x in cfg.home ==>
               (x == s <==> (if x in cfg.moves then cfg.moves[x] == bin else cfg.home[x] == bin))
    ensures Load(w.forest, WeightOf(MetricSum(consistency), w), Node(BIN_DOMAIN, bin), cfg) == w.metrics[0][s]
  {
    hide Load, ShardsBelow;
    LoadIsPlain(MetricSum(consistency), w, Node(BIN_DOMAIN, bin), cfg);
    ShardsOfBin(w.forest, bin, cfg);
    assert ShardsBelow(w.forest, Node(BIN_DOMAIN, bin), cfg) == {s};
    SumPick({s}, Entries(w.metrics, 0), s);
    assert {s} - {s} == {};
  }

  // ----- Bins -----

  /** The list names exactly the shards whose membership in the bin changes, each once. */
  ghost predicate ListsChanges(changed: seq<DomainId>, bin: DomainId, before: Config, after: Config) {
    && NoDuplicates(changed)
    && forall s :: s in changed <==> before.Holds(bin, s) != after.Holds(bin, s)
  }

  ghost function BinShare(w: World, op: Operator, bin: DomainId, cfg: Config): DomainId -> int {
    ShareOfShard(w.forest, WeightOf(op, w), Node(BIN_DOMAIN, bin), cfg)
  }

  ghost function SignedChange(w: World, op: Operator, bin: DomainId, after: Config): DomainId -> int {
    (s: DomainId) => if after.Holds(bin, s) then ShardWeight(op, w, s) else -ShardWeight(op, w, s)
  }

  lemma BinShareValue(op: Operator, w: World, bin: DomainId, cfg: Config, s: DomainId)
    ensures BinShare(w, op, bin, cfg)(s) == if cfg.Holds(bin, s) then ShardWeight(op, w, s) else 0
  {
    if s in cfg.home {
      assert AncestorAt(w.forest, Node(BIN_DOMAIN, cfg.BinOf(s)), BIN_DOMAIN) == Some(Node(BIN_DOMAIN, cfg.BinOf(s)));
    }
  }

  /** Adding or subtracting the changed shards updates the load of a bin exactly. */
  lemma BinLoadChange(op: Operator, w: World, bin: DomainId, changed: seq<DomainId>, before: Config, after: Config)
    requires ListsChanges(changed, bin, before, after)
    requires before.home.Keys <= after.home.Keys
    ensures Load(w.forest, WeightOf(op, w), Node(BIN_DOMAIN, bin), after)
         == Load(w.forest, WeightOf(op, w), Node(BIN_DOMAIN, bin), before)
             + SeqSum(changed, SignedChange(w, op, bin, after))
  {
    var shards := after.home.Keys;
    var signed := SignedChange(w, op, bin, after);
    var was, now := BinShare(w, op, bin, before), BinShare(w, op, bin, after);
    var masked := (s: DomainId) => if s in changed then signed(s) else 0;
    SeqSumIsSetSum(changed, signed);
    SumExt(Elements(changed), masked, signed);
    SumSubset(Elements(changed), shards, masked);
    forall s
      ensures now(s) == was(s) + masked(s) && (s !in before.home ==> was(s) == 0)
    {
      BinShareValue(op, w, bin, before, s);
      BinShareValue(op, w, bin, after, s);
      assert s in changed <==> before.Holds(bin, s) != after.Holds(bin, s);
    }
    hide BinShare, SignedChange;
    SumSubset(before.home.Keys, shards, was);
    SumPlus(shards, was, masked, now);
    assert Load(w.forest, WeightOf(op, w), Node(BIN_DOMAIN, bin), after) == SumOver(shards, now);
  }

  /** With consistency AFTER, evaluating a bin on its changed shards yields its from-scratch value. */
  lemma BinStep(op: Operator, w: World, moves: seq<MovementIndex>,
                view: Values, committed: Values,
                bin: DomainId, changed: seq<DomainId>, before: Config, after: Config)
    requires !op.Extremum? && op.Mode() == AFTER
    requires ListsChanges(changed, bin, before, after) && before.home.Keys <= after.home.Keys
    requires forall s :: s in changed ==> (IsFutureChild(Nexts(moves), s, bin) <==> after.Holds(bin, s))
    requires NodeOk(op, w, Node(BIN_DOMAIN, bin), committed, before)
    requires ValueOrZero(view, Node(BIN_DOMAIN, bin)) == ValueOrZero(committed, Node(BIN_DOMAIN, bin))
    ensures StepValue(op, w, moves, view, committed, Node(BIN_DOMAIN, bin), changed)
         == NodeValue(op, w, Node(BIN_DOMAIN, bin), after)
  {
    hide Narrow, Touched, Load;
    var n := Node(BIN_DOMAIN, bin);
    var term, signed := BinTerm(op, w, Nexts(moves), bin), SignedChange(w, op, bin, after);
    assert forall s :: s in changed ==> term(s) == signed(s);
    SeqSumExt(changed, term, signed);
    BinLoadChange(op, w, bin, changed, before, after);
    RecordedOrZero(op, w, n, committed, before);
    assert ChildTerm(op, w, Nexts(moves), view, committed, n) == term;
    NarrowSum(ValueOrZero(view, n), Load(w.forest, WeightOf(op, w), n, before), SeqSum(changed, term),
        SeqSum(changed, signed));
  }

  // ----- Nodes above the bins -----

  ghost function ChildIds(forest: Forest, nodes: set<Node>, n: Node): set<DomainId> {
    set c | c in ChildrenIn(forest, nodes, n) :: c.id
  }

  /** The children of n that are in the canary layer are exactly the listed ones, each listed once. */
  ghost predicate ListsChildren(w: World, nodes: set<Node>, n: Node, changed: seq<DomainId>, canary: Values) {
    && NoDuplicates(changed)
    && (forall id :: id in changed ==> id in ChildIds(w.forest, nodes, n))
    && (forall c :: c in ChildrenIn(w.forest, nodes, n) ==> (c in canary <==> c.id in changed))
  }

  ghost function CanaryDelta(view: Values, committed: Values, canary: Values): Node -> int {
    (c: Node) => if c in canary then Narrow(ValueOrZero(view, c) - ValueOrZero(committed, c)) else 0
  }

  /** Summing over the list of changed children is summing over all children. */
  lemma ListedDeltas(w: World, nodes: set<Node>, n: Node, changed: seq<DomainId>,
                     committed: Values, canary: Values)
    requires n.domain > BIN_DOMAIN
    requires ListsChildren(w, nodes, n, changed, canary)
    requires forall c :: c in ChildrenIn(w.forest, nodes, n) ==> c.domain == n.domain - 1
    ensures SeqSum(changed, ChildDelta(n.domain - 1, committed + canary, committed))
         == SumOver(ChildrenIn(w.forest, nodes, n), CanaryDelta(committed + canary, committed, canary))
  {
    var view := committed + canary;
    var g := CanaryDelta(view, committed, canary);
    var f := ChildDelta(n.domain - 1, view, committed);
    var kids := ChildrenIn(w.forest, nodes, n);
    var listed := set c | c in kids && c.id in changed;
    assert forall c :: c in kids && c !in listed ==> g(c) == 0;
    assert forall c :: c in listed ==> f(c.id) == g(c);
    forall id | id in changed
      ensures Node(n.domain - 1, id) in listed
    {
      var c :| c in kids && c.id == id;
      assert c == Node(n.domain - 1, id);
    }
    hide ChildrenIn, CanaryDelta, ChildDelta;
    SumSubset(listed, kids, g);
    SeqSumIsSetSum(changed, f);
    SumRename(Elements(changed), listed, f, g, n.domain - 1);
  }

  lemma {:induction false} SumRename(ids: set<DomainId>, nodes: set<Node>, f: DomainId -> int, g: Node -> int,
                                     domain: Domain)
    requires forall c :: c in nodes ==> c.domain == domain && c.id in ids && f(c.id) == g(c)
    requires forall id :: id in ids ==> Node(domain, id) in nodes
    ensures SumOver(ids, f) == SumOver(nodes, g)
    decreases |ids|
  {
    if ids == {} {
      assert nodes == {};
    } else {
      var id :| id in ids;
      SumPick(ids, f, id);
      SumPick(nodes, g, Node(domain, id));
      SumRename(ids - {id}, nodes - {Node(domain, id)}, f, g, domain);
    }
  }

  lemma CanaryDeltaAt(committed: Values, canary: Values, c: Node)
    ensures var now, was := ValueOrZero(committed + canary, c), ValueOrZero(committed, c);
            CanaryDelta(committed + canary, committed, canary)(c) == if now == was then 0 else Narrow(now - was)
  {
  }

  lemma CanaryDeltaExact(op: Operator, w: World, c: Node, committed: Values, canary: Values,
                         before: Config, after: Config)
    requires !op.Extremum?
    requires NodeOk(op, w, c, committed, before) && NodeOk(op, w, c, committed + canary, after)
    ensures Congruent(CanaryDelta(committed + canary, committed, canary)(c),
                      Load(w.forest, WeightOf(op, w), c, after) - Load(w.forest, WeightOf(op, w), c, before))
  {
    hide *;
    RecordedOrZero(op, w, c, committed, before);
    RecordedOrZero(op, w, c, committed + canary, after);
    var was, now := ValueOrZero(committed, c), ValueOrZero(committed + canary, c);
    NarrowSum(now, Load(w.forest, WeightOf(op, w), c, after), was, Load(w.forest, WeightOf(op, w), c, before));
    CongruentSum(now, Load(w.forest, WeightOf(op, w), c, after), was, Load(w.forest, WeightOf(op, w), c, before));
    CanaryDeltaAt(committed, canary, c);
  }

  /** The summed differences of all children are the difference of the loads, modulo 2^32. */
  lemma DeltaOfLoads(op: Operator, w: World, nodes: set<Node>, committed: Values, canary: Values,
                     n: Node, before: Config, after: Config)
    requires !op.Extremum?
    requires Layered(w.forest) && n.domain > BIN_DOMAIN && HasChildren(w.forest, nodes, n)
    requires forall c :: c in ChildrenIn(w.forest, nodes, n) ==>
               NodeOk(op, w, c, committed, before) && NodeOk(op, w, c, committed + canary, after)
    ensures Congruent(SumOver(ChildrenIn(w.forest, nodes, n), CanaryDelta(committed + canary, committed, canary)),
                      Load(w.forest, WeightOf(op, w), n, after) - Load(w.forest, WeightOf(op, w), n, before))
  {
    hide Narrow, Congruent, Touched, Load, HasChildren, NodeValue, Layered, Rising, NodeOk;
    LayeredRises(w.forest);
    var kids := ChildrenIn(w.forest, nodes, n);
    var weight := WeightOf(op, w);
    var was, now := LoadOfNode(w.forest, weight, before), LoadOfNode(w.forest, weight, after);
    var exact := (c: Node) => now(c) - was(c);
    var delta := CanaryDelta(committed + canary, committed, canary);
    LoadThroughChildren(w.forest, weight, nodes, n, before);
    LoadThroughChildren(w.forest, weight, nodes, n, after);
    forall c | c in kids
      ensures Congruent(delta(c), exact(c))
    {
      CanaryDeltaExact(op, w, c, committed, canary, before, after);
    }
    hide CanaryDelta, ChildrenIn;
    SumPlus(kids, was, exact, now);
    SumCongruent(kids, delta, exact);
  }

  /**
   Adding "current minus committed" over the changed children turns the old
   value of a node into its from-scratch value, modulo 2^32 at every step.
   */
  lemma NodeStep(op: Operator, w: World, moves: seq<MovementIndex>, nodes: set<Node>,
                 committed: Values, canary: Values,
                 n: Node, changed: seq<DomainId>, before: Config, after: Config)
    requires op.MetricSum? && Layered(w.forest) && n.domain > BIN_DOMAIN && HasChildren(w.forest, nodes, n)
    requires ListsChildren(w, nodes, n, changed, canary)
    requires forall c :: c in ChildrenIn(w.forest, nodes, n) ==>
               NodeOk(op, w, c, committed, before) && NodeOk(op, w, c, committed + canary, after)
    requires NodeOk(op, w, n, committed, before) && n !in canary
    ensures StepValue(op, w, moves, committed + canary, committed, n, changed) == NodeValue(op, w, n, after)
  {
    hide Narrow, Congruent, Touched, Load, HasChildren, ListsChildren, SumOver, WeightOf;
    assert forall c :: c in ChildrenIn(w.forest, nodes, n) ==> c.domain == n.domain - 1;
    hide ChildrenIn, Layered;
    var view := committed + canary;
    var weight := WeightOf(op, w);
    DeltaOfLoads(op, w, nodes, committed, canary, n, before, after);
    ListedDeltas(w, nodes, n, changed, committed, canary);
    RecordedOrZero(op, w, n, committed, before);
    var delta := SumOver(ChildrenIn(w.forest, nodes, n), CanaryDelta(view, committed, canary));
    var was, now := Load(w.forest, weight, n, before), Load(w.forest, weight, n, after);
    assert SeqSum(changed, ChildTerm(op, w, Nexts(moves), view, committed, n)) == delta;
    assert ValueOrZero(view, n) == ValueOrZero(committed, n);
    NarrowSum(ValueOrZero(view, n), was, delta, now - was);
  }

  /** A sum with no child in the canary layer keeps its value and its status. */
  lemma QuietSum(op: Operator, w: World, nodes: set<Node>, committed: Values, canary: Values,
                  n: Node, before: Config, after: Config)
    requires op.MetricSum? && Layered(w.forest) && n.domain > BIN_DOMAIN && HasChildren(w.forest, nodes, n)
    requires forall c :: c in ChildrenIn(w.forest, nodes, n) ==>
               c !in canary && NodeOk(op, w, c, committed, before) && NodeOk(op, w, c, committed + canary, after)
    requires NodeOk(op, w, n, committed, before) && n !in canary
    ensures NodeOk(op, w, n, committed + canary, after)
  {
    hide Narrow, Congruent, Touched, Load, HasChildren;
    NodeStep(op, w, [], nodes, committed, canary, n, [], before, after);
    NarrowExact(ValueOrZero(committed, n));
    RecordedOrZero(op, w, n, committed, before);
    TouchedThroughChild(w.forest, nodes, n, before);
    TouchedThroughChild(w.forest, nodes, n, after);
  }

  // ----- Least and greatest loads -----

  ghost predicate IsExtreme(S: set<int>, greatest: bool, x: int) {
    x in S && forall y :: y in S ==> if greatest then y <= x else x <= y
  }

  /** std::min_element with the operator's comparison; 0 when there is nothing to compare. */
  ghost function Extreme(S: set<int>, greatest: bool): int {
    if exists x :: IsExtreme(S, greatest, x) then var x :| IsExtreme(S, greatest, x); x else 0
  }

  lemma ExtremeIsUnique(S: set<int>, greatest: bool, x: int)
    requires IsExtreme(S, greatest, x)
    ensures Extreme(S, greatest) == x
  {
  }

  lemma AnyElement<T>(S: set<T>) returns (x: T)
    requires S != {}
    ensures x in S
  {
    x :| x in S;
  }

  lemma {:induction false} ExtremeExists(S: set<int>, greatest: bool)
    requires S != {}
    ensures IsExtreme(S, greatest, Extreme(S, greatest))
    decreases |S|
  {
    var x := AnyElement(S);
    if S == {x} {
      assert IsExtreme(S, greatest, x);
    } else {
      ExtremeExists(S - {x}, greatest);
      var e := Extreme(S - {x}, greatest);
      var best := if greatest == (e <= x) then x else e;
      assert forall y :: y in S ==> y == x || y in S - {x};
      assert IsExtreme(S, greatest, best);
    }
  }

  lemma UsedBinBelow(forest: Forest, n: Node, cfg: Config)
    ensures Touched(forest, n, cfg) <==> exists b :: b in UsedBins(cfg) && Above(forest, n, b)
  {
    if Touched(forest, n, cfg) {
      var s :| s in cfg.home && (Above(forest, n, cfg.home[s]) || (s in cfg.moves && Above(forest, n, cfg.moves[s])));
      assert cfg.home[s] in UsedBins(cfg) && (s in cfg.moves ==> cfg.moves[s] in UsedBins(cfg));
    }
  }

  /** A touched node's value is the extreme of the used bins below it; for a bin, its own load. */
  lemma ValueIsExtreme(op: Operator, w: World, n: Node, cfg: Config)
    requires op.Extremum? && n.domain >= BIN_DOMAIN && Touched(w.forest, n, cfg)
    ensures IsExtreme(BinValuesBelow(op, w, n, cfg), op.greatest, NodeValue(op, w, n, cfg))
  {
    UsedBinBelow(w.forest, n, cfg);
    var b :| b in UsedBins(cfg) && Above(w.forest, n, b);
    hide Touched, Load, UsedBins;
    assert BinValue(op, w, b, cfg) in BinValuesBelow(op, w, n, cfg);
    if n.domain == BIN_DOMAIN {
      assert forall b' :: Above(w.forest, n, b') ==> Node(BIN_DOMAIN, b') == n;
    } else {
      ExtremeExists(BinValuesBelow(op, w, n, cfg), op.greatest);
    }
  }

  ghost function TouchedChildValues(op: Operator, w: World, nodes: set<Node>, n: Node, cfg: Config): set<int> {
    set c | c in ChildrenIn(w.forest, nodes, n) && Touched(w.forest, c, cfg) :: NodeValue(op, w, c, cfg)
  }

  /** The extreme over the used bins below a node is the extreme over its touched children. */
  lemma ExtremeThroughChildren(op: Operator, w: World, nodes: set<Node>, n: Node, cfg: Config)
    requires op.Extremum? && Rising(w.forest) && n.domain > BIN_DOMAIN && HasChildren(w.forest, nodes, n)
    requires Touched(w.forest, n, cfg)
    ensures NodeValue(op, w, n, cfg) == Extreme(TouchedChildValues(op, w, nodes, n, cfg), op.greatest)
  {
    var all, byChild := BinValuesBelow(op, w, n, cfg), TouchedChildValues(op, w, nodes, n, cfg);
    TouchedThroughChild(w.forest, nodes, n, cfg);
    var some :| some in ChildrenIn(w.forest, nodes, n) && Touched(w.forest, some, cfg);
    assert NodeValue(op, w, some, cfg) in byChild;
    ExtremeExists(byChild, op.greatest);
    var x := Extreme(byChild, op.greatest);
    forall v | v in all
      ensures exists y :: y in byChild && if op.greatest then v <= y else y <= v
    {
      var b :| b in UsedBins(cfg) && Above(w.forest, n, b) && v == BinValue(op, w, b, cfg);
      var c := ChildExtreme(op, w, nodes, n, cfg, b);
      assert NodeValue(op, w, c, cfg) in byChild;
    }
    var c :| c in ChildrenIn(w.forest, nodes, n) && Touched(w.forest, c, cfg) && x == NodeValue(op, w, c, cfg);
    ChildValueIsBelow(op, w, nodes, n, cfg, c);
    ExtremeIsUnique(all, op.greatest, x);
  }

  lemma ChildExtreme(op: Operator, w: World, nodes: set<Node>, n: Node, cfg: Config, bin: DomainId) returns (c: Node)
    requires op.Extremum? && Rising(w.forest) && n.domain > BIN_DOMAIN && HasChildren(w.forest, nodes, n)
    requires bin in UsedBins(cfg) && Above(w.forest, n, bin)
    ensures c in ChildrenIn(w.forest, nodes, n) && Touched(w.forest, c, cfg)
    ensures if op.greatest then BinValue(op, w, bin, cfg) <= NodeValue(op, w, c, cfg)
            else NodeValue(op, w, c, cfg) <= BinValue(op, w, bin, cfg)
  {
    AboveThroughChild(w.forest, nodes, n, bin);
    c :| c in ChildrenIn(w.forest, nodes, n) && Above(w.forest, c, bin);
    UsedBinBelow(w.forest, c, cfg);
    ValueIsExtreme(op, w, c, cfg);
    assert BinValue(op, w, bin, cfg) in BinValuesBelow(op, w, c, cfg);
  }

  lemma ChildValueIsBelow(op: Operator, w: World, nodes: set<Node>, n: Node, cfg: Config, c: Node)
    requires op.Extremum? && Rising(w.forest) && n.domain > BIN_DOMAIN && HasChildren(w.forest, nodes, n)
    requires c in ChildrenIn(w.forest, nodes, n) && Touched(w.forest, c, cfg)
    ensures NodeValue(op, w, c, cfg) in BinValuesBelow(op, w, n, cfg)
  {
    ValueIsExtreme(op, w, c, cfg);
    var b :| b in UsedBins(cfg) && Above(w.forest, c, b) && NodeValue(op, w, c, cfg) == BinValue(op, w, b, cfg);
    AboveThroughChild(w.forest, nodes, n, b);
  }

  /** Recomputing a node from its recorded children yields its from-scratch extreme. */
  lemma ExtremumStep(op: Operator, w: World, moves: seq<MovementIndex>, nodes: set<Node>,
                     view: Values, committed: Values, n: Node, changed: seq<DomainId>, after: Config)
    requires op.Extremum? && Rising(w.forest) && n.domain > BIN_DOMAIN && HasChildren(w.forest, nodes, n)
    requires forall c :: c in ChildrenIn(w.forest, nodes, n) ==> NodeOk(op, w, c, view, after)
    requires Touched(w.forest, n, after)
    ensures StepValue(op, w, moves, view, committed, n, changed) == NodeValue(op, w, n, after)
  {
    ExtremeThroughChildren(op, w, nodes, n, after);
    assert AllChildren(w, n) == ChildrenIn(w.forest, nodes, n);
    hide Touched, NodeValue, HasChildren, ChildrenIn;
    assert RecordedValues(w, n, view) == TouchedChildValues(op, w, nodes, n, after);
  }

  /** A cached least or greatest value is the true one over the recorded children and over the used bins below. */
  lemma CachedExtreme(op: Operator, w: World, nodes: set<Node>, values: Values, n: Node, cfg: Config)
    requires op.Extremum? && Rising(w.forest) && n.domain > BIN_DOMAIN && HasChildren(w.forest, nodes, n)
    requires forall c :: c in ChildrenIn(w.forest, nodes, n) ==> NodeOk(op, w, c, values, cfg)
    requires NodeOk(op, w, n, values, cfg) && n in values
    ensures IsExtreme(RecordedValues(w, n, values), op.greatest, values[n])
    ensures IsExtreme(BinValuesBelow(op, w, n, cfg), op.greatest, values[n])
  {
    ValueIsExtreme(op, w, n, cfg);
    ExtremeThroughChildren(op, w, nodes, n, cfg);
    TouchedThroughChild(w.forest, nodes, n, cfg);
    assert AllChildren(w, n) == ChildrenIn(w.forest, nodes, n);
    hide Touched, NodeValue, HasChildren, ChildrenIn, BinValuesBelow, Extreme;
    assert RecordedValues(w, n, values) == TouchedChildValues(op, w, nodes, n, cfg);
    var c :| c in AllChildren(w, n) && Touched(w.forest, c, cfg);
    assert values[c] in RecordedValues(w, n, values);
    ExtremeExists(RecordedValues(w, n, values), op.greatest);
  }

  lemma QuietExtremum(op: Operator, w: World, nodes: set<Node>, committed: Values, canary: Values,
                      n: Node, before: Config, after: Config)
    requires op.Extremum? && Rising(w.forest) && n.domain > BIN_DOMAIN && HasChildren(w.forest, nodes, n)
    requires forall c :: c in ChildrenIn(w.forest, nodes, n) ==>
               c !in canary && NodeOk(op, w, c, committed, before) && NodeOk(op, w, c, committed + canary, after)
    requires NodeOk(op, w, n, committed, before) && n !in canary
    ensures NodeOk(op, w, n, committed + canary, after)
  {
    hide Touched, NodeValue, HasChildren, ChildrenIn, Rising, Extreme;
    TouchedThroughChild(w.forest, nodes, n, before);
    TouchedThroughChild(w.forest, nodes, n, after);
    if Touched(w.forest, n, before) {
      ExtremeThroughChildren(op, w, nodes, n, before);
      ExtremeThroughChildren(op, w, nodes, n, after);
      assert TouchedChildValues(op, w, nodes, n, before) == TouchedChildValues(op, w, nodes, n, after);
    }
  }

  // ----- Which shards a bin holds -----

  /**
   The movement maps describe the configuration: filtering the members of a
   bin by AFTER leaves exactly its shards, each listed once.
   */
  ghost predicate MovesMatch(w: World, moves: seq<MovementIndex>, cfg: Config) {
    && (forall b, s :: s in ConsideredMembers(w, moves, b) <==> cfg.Holds(b, s))
    && (forall b, s :: BinMembers(w, moves, b)[s] <= 1)
    && (forall b, s :: s in BinMembers(w, moves, b) ==> s in w.home)
  }

  /** Moves that the solver makes: of known shards, each away from its home bin. */
  ghost predicate MovesAway(w: World, moves: MovementIndex) {
    && moves.Inverse()
    && forall s :: s in moves.next ==> s in w.home && moves.next[s] != w.home[s]
  }

  lemma StillMoves(w: World)
    ensures MovesMatch(w, [NO_MOVES], Config(w.home, map[]))
  {
    assert [NO_MOVES][..0] == [];
    forall b
      ensures IncomingTotal([NO_MOVES], b) == multiset{}
    {
      assert IncomingTotal([], b) == multiset{};
    }
    assert Nexts([NO_MOVES]) == [map[]];
  }

  lemma IncomingOfThree(committed: MovementIndex, canary: MovementIndex, b: DomainId)
    ensures IncomingTotal([NO_MOVES, committed, canary], b)
         == multiset(committed.Incoming(b)) + multiset(canary.Incoming(b))
  {
    var three := [NO_MOVES, committed, canary];
    assert three[..2] == [NO_MOVES, committed] && [NO_MOVES, committed][..1] == [NO_MOVES] && [NO_MOVES][..0] == [];
    assert IncomingTotal([NO_MOVES], b) == multiset{};
  }

  /**
   Committed moves and canary moves of different shards, all away from home:
   the filtered child lists of the bins partition the shards.
   */
  lemma MembersPartition(w: World, committed: MovementIndex, canary: MovementIndex)
    requires MovesAway(w, committed) && MovesAway(w, canary) && committed.next.Keys !! canary.next.Keys
    ensures MovesMatch(w, [NO_MOVES, committed, canary], Config(w.home, committed.next + canary.next))
  {
    hide BinMembers, ConsideredMembers, MovesAway;
    var moves, cfg := [NO_MOVES, committed, canary], Config(w.home, committed.next + canary.next);
    forall b, s
      ensures BinMembers(w, moves, b)[s] <= 1
    {
      MemberOfBin(w, committed, canary, b, s);
    }
    forall b, s
      ensures s in BinMembers(w, moves, b) ==> s in w.home
    {
      MemberOfBin(w, committed, canary, b, s);
    }
    forall b, s
      ensures s in ConsideredMembers(w, moves, b) <==> cfg.Holds(b, s)
    {
      MemberOfBin(w, committed, canary, b, s);
    }
  }

  lemma MemberOfBin(w: World, committed: MovementIndex, canary: MovementIndex, b: DomainId, s: DomainId)
    requires MovesAway(w, committed) && MovesAway(w, canary) && committed.next.Keys !! canary.next.Keys
    ensures var moves := [NO_MOVES, committed, canary];
            && BinMembers(w, moves, b)[s] <= 1
            && (s in BinMembers(w, moves, b) ==> s in w.home)
            && (s in ConsideredMembers(w, moves, b) <==> Config(w.home, committed.next + canary.next).Holds(b, s))
  {
    var moves := [NO_MOVES, committed, canary];
    IncomingOfThree(committed, canary, b);
    assert s in committed.Incoming(b) <==> s in committed.next && committed.next[s] == b;
    assert s in canary.Incoming(b) <==> s in canary.next && canary.next[s] == b;
    var nexts := Nexts(moves);
    assert nexts == [map[], committed.next, canary.next];
    assert committed.next in nexts && canary.next in nexts;
    assert IsFutureChild(nexts, s, b) <==>
           (s in committed.next ==> committed.next[s] == b) && (s in canary.next ==> canary.next[s] == b);
  }

  /** The from-scratch filtered sum of the load balancing constraint is the load of the bin. */
  lemma FilteredSumIsLoad(op: Operator, w: World, moves: seq<MovementIndex>, bin: DomainId, cfg: Config)
    requires forall s :: s in ConsideredMembers(w, moves, bin) <==> cfg.Holds(bin, s)
    ensures SumOver(ConsideredMembers(w, moves, bin), WeightOf(op, w))
         == Load(w.forest, WeightOf(op, w), Node(BIN_DOMAIN, bin), cfg)
  {
    var members := ConsideredMembers(w, moves, bin);
    var share := BinShare(w, op, bin, cfg);
    forall s
      ensures share(s) == if s in members then ShardWeight(op, w, s) else 0
    {
      BinShareValue(op, w, bin, cfg, s);
    }
    hide BinShare, ConsideredMembers;
    assert members <= cfg.home.Keys;
    SumSubset(members, cfg.home.Keys, share);
    SumExt(members, share, WeightOf(op, w));
    assert Load(w.forest, WeightOf(op, w), Node(BIN_DOMAIN, bin), cfg) == SumOver(cfg.home.Keys, share)
        by { BinShareSum(op, w, bin, cfg); }
  }

  lemma BinShareSum(op: Operator, w: World, bin: DomainId, cfg: Config)
    ensures Load(w.forest, WeightOf(op, w), Node(BIN_DOMAIN, bin), cfg)
              == SumOver(cfg.home.Keys, BinShare(w, op, bin, cfg))
  {
  }
}
