/**
 From-scratch meaning of a placement: which bin holds every shard, which domain
 node lies above it, and what each node's value should be.  Nothing in this
 module is incremental; the other modules are proved against it.
 */
module Placement {
  import opened Basics
  import opened Sums

  /** The child-to-parent edges of the domain tree (shards excluded). */
  type Forest = map<Node, Node>

  /** Every parent lies in the next domain, as in the tree of a solving state. */
  ghost predicate Layered(forest: Forest) {
    forall c :: c in forest ==> forest[c].domain == c.domain + 1
  }

  /** Parents lie in some higher domain, all children of a node in one domain, and shards in bins only. */
  ghost predicate Rising(forest: Forest) {
    && (forall c :: c in forest ==>
        c.domain < forest[c].domain && (c.domain >= BIN_DOMAIN || forest[c].domain == BIN_DOMAIN))
    && (forall c, c' :: c in forest && c' in forest && forest[c] == forest[c'] ==> c.domain == c'.domain)
  }

  lemma LayeredRises(forest: Forest)
    requires Layered(forest)
    ensures Rising(forest)
  {
  }

  /** The node of domain `domain` that lies at or above `n`. */
  ghost function AncestorAt(forest: Forest, n: Node, domain: Domain): (r: Option<Node>)
    decreases domain - n.domain
  {
    if domain == n.domain then Some(n)
    else if n in forest && n.domain < forest[n].domain <= domain then AncestorAt(forest, forest[n], domain)
    else None
  }

  ghost predicate Above(forest: Forest, n: Node, bin: DomainId) {
    AncestorAt(forest, Node(BIN_DOMAIN, bin), n.domain) == Some(n)
  }

  lemma {:induction false} AncestorDomain(forest: Forest, n: Node, domain: Domain)
    ensures var a := AncestorAt(forest, n, domain); a.Some? ==> a.value.domain == domain
    decreases domain - n.domain
  {
    if n in forest && n.domain < forest[n].domain <= domain {
      AncestorDomain(forest, forest[n], domain);
    }
  }

  /** Climbing ends with a step from a child of the node reached. */
  lemma {:induction false} LastStep(forest: Forest, n: Node, top: Node) returns (c: Node)
    requires n.domain < top.domain && AncestorAt(forest, n, top.domain) == Some(top)
    ensures c in forest && forest[c] == top && n.domain <= c.domain < top.domain
    ensures AncestorAt(forest, n, c.domain) == Some(c)
    decreases top.domain - n.domain
  {
    if forest[n].domain == top.domain {
      c := n;
    } else {
      c := LastStep(forest, forest[n], top);
    }
  }

  lemma {:induction false} NextStep(forest: Forest, n: Node, c: Node)
    requires n.domain <= c.domain && AncestorAt(forest, n, c.domain) == Some(c)
    requires c in forest && c.domain < forest[c].domain
    ensures AncestorAt(forest, n, forest[c].domain) == Some(forest[c])
    decreases c.domain - n.domain
  {
    if n.domain < c.domain {
      NextStep(forest, forest[n], c);
    }
  }

  /** What the solver moves: the static home of every shard and the moves made so far. */
  datatype Config = Config(home: ShardBins, moves: ShardBins) {
    function BinOf(shard: DomainId): DomainId
      requires shard in home
    {
      if shard in moves then moves[shard] else home[shard]
    }

    predicate Holds(bin: DomainId, shard: DomainId) {
      shard in home && BinOf(shard) == bin
    }
  }

  const NOWHERE := Config(map[], map[])

  /** The node has a shard below it at home or as the target of a move. */
  ghost predicate Touched(forest: Forest, n: Node, cfg: Config) {
    exists s :: s in cfg.home && (Above(forest, n, cfg.home[s]) || (s in cfg.moves && Above(forest, n, cfg.moves[s])))
  }

  ghost function Share(forest: Forest, weight: DomainId -> int, n: Node, cfg: Config, s: DomainId): int {
    if s in cfg.home && Above(forest, n, cfg.BinOf(s)) then weight(s) else 0
  }

  ghost function ShareOfShard(forest: Forest, weight: DomainId -> int, n: Node, cfg: Config): DomainId -> int {
    (s: DomainId) => Share(forest, weight, n, cfg, s)
  }

  ghost function ShareOfNode(forest: Forest, weight: DomainId -> int, cfg: Config, s: DomainId): Node -> int {
    (n: Node) => Share(forest, weight, n, cfg, s)
  }

  /** Total weight of the shards whose bin lies at or below the node. */
  ghost function Load(forest: Forest, weight: DomainId -> int, n: Node, cfg: Config): int {
    SumOver(cfg.home.Keys, ShareOfShard(forest, weight, n, cfg))
  }

  /** The shards whose bin lies at or below the node. */
  ghost function ShardsBelow(forest: Forest, n: Node, cfg: Config): set<DomainId> {
    set s | s in cfg.home && Above(forest, n, if s in cfg.moves then cfg.moves[s] else cfg.home[s])
  }

  /** The load of a node is the weight of the shards below it. */
  lemma LoadOfShards(forest: Forest, weight: DomainId -> int, n: Node, cfg: Config)
    ensures Load(forest, weight, n, cfg) == SumOver(ShardsBelow(forest, n, cfg), weight)
  {
    hide Above, SumOver;
    var below, share := ShardsBelow(forest, n, cfg), ShareOfShard(forest, weight, n, cfg);
    SumSubset(below, cfg.home.Keys, share);
    SumExt(below, share, weight);
  }

  /** Below a bin are the shards that were moved there, and those at home there that were not moved. */
  lemma ShardsOfBin(forest: Forest, bin: DomainId, cfg: Config)
    ensures forall s :: s in ShardsBelow(forest, Node(BIN_DOMAIN, bin), cfg)
              <==> s in cfg.home && (if s in cfg.moves then cfg.moves[s] == bin else cfg.home[s] == bin)
  {
    forall b
      ensures Above(forest, Node(BIN_DOMAIN, bin), b) <==> b == bin
    {
    }
  }

  ghost function LoadOfNode(forest: Forest, weight: DomainId -> int, cfg: Config): Node -> int {
    (n: Node) => Load(forest, weight, n, cfg)
  }

  lemma UntouchedIsEmpty(forest: Forest, weight: DomainId -> int, n: Node, cfg: Config)
    requires !Touched(forest, n, cfg)
    ensures Load(forest, weight, n, cfg) == 0
  {
    SumConstant(cfg.home.Keys, ShareOfShard(forest, weight, n, cfg), 0);
  }

  // ----- One layer in terms of the layer below -----

  ghost function ChildrenIn(forest: Forest, nodes: set<Node>, n: Node): set<Node> {
    set c | c in nodes && c in forest && forest[c] == n
  }

  /** Every child of n that is not a shard belongs to the given nodes. */
  ghost predicate HasChildren(forest: Forest, nodes: set<Node>, n: Node) {
    forall c :: c in forest && forest[c] == n && c.domain >= BIN_DOMAIN ==> c in nodes
  }

  /** A bin has at most one child of n above it, and has one iff n is above it. */
  lemma AboveThroughChild(forest: Forest, nodes: set<Node>, n: Node, bin: DomainId)
    requires Rising(forest) && n.domain > BIN_DOMAIN && HasChildren(forest, nodes, n)
    ensures Above(forest, n, bin) <==> exists c :: c in ChildrenIn(forest, nodes, n) && Above(forest, c, bin)
    ensures forall c, c' :: c in ChildrenIn(forest, nodes, n) && c' in ChildrenIn(forest, nodes, n) ==>
                              Above(forest, c, bin) && Above(forest, c', bin) ==> c == c'
  {
    var b := Node(BIN_DOMAIN, bin);
    if Above(forest, n, bin) {
      var c := LastStep(forest, b, n);
      assert c in ChildrenIn(forest, nodes, n) && Above(forest, c, bin);
    }
    forall c | c in ChildrenIn(forest, nodes, n) && Above(forest, c, bin)
      ensures Above(forest, n, bin)
    {
      NextStep(forest, b, c);
    }
  }

  lemma ShareThroughChildren(forest: Forest, weight: DomainId -> int, nodes: set<Node>, n: Node, cfg: Config,
                             s: DomainId)
    requires Rising(forest) && n.domain > BIN_DOMAIN && HasChildren(forest, nodes, n)
    requires s in cfg.home
    ensures Share(forest, weight, n, cfg, s)
         == SumOver(ChildrenIn(forest, nodes, n), ShareOfNode(forest, weight, cfg, s))
  {
    var kids := ChildrenIn(forest, nodes, n);
    var f := ShareOfNode(forest, weight, cfg, s);
    AboveThroughChild(forest, nodes, n, cfg.BinOf(s));
    if Above(forest, n, cfg.BinOf(s)) {
      var c :| c in kids && Above(forest, c, cfg.BinOf(s));
      SumPick(kids, f, c);
      SumConstant(kids - {c}, f, 0);
    } else {
      SumConstant(kids, f, 0);
    }
  }

  /** The load of a node is the sum of the loads of its children. */
  lemma LoadThroughChildren(forest: Forest, weight: DomainId -> int, nodes: set<Node>, n: Node, cfg: Config)
    requires Rising(forest) && n.domain > BIN_DOMAIN && HasChildren(forest, nodes, n)
    ensures Load(forest, weight, n, cfg)
         == SumOver(ChildrenIn(forest, nodes, n), LoadOfNode(forest, weight, cfg))
  {
    forall s | s in cfg.home.Keys {
      ShareThroughChildren(forest, weight, nodes, n, cfg, s);
    }
    SumExchange(cfg.home.Keys, ChildrenIn(forest, nodes, n),
                (s: DomainId) => ShareOfNode(forest, weight, cfg, s),
                (c: Node) => ShareOfShard(forest, weight, c, cfg),
                ShareOfShard(forest, weight, n, cfg), LoadOfNode(forest, weight, cfg));
  }

  lemma TouchedThroughChild(forest: Forest, nodes: set<Node>, n: Node, cfg: Config)
    requires Rising(forest) && n.domain > BIN_DOMAIN && HasChildren(forest, nodes, n)
    ensures Touched(forest, n, cfg) <==> exists c :: c in ChildrenIn(forest, nodes, n) && Touched(forest, c, cfg)
  {
    hide Above, Rising, HasChildren, ChildrenIn;
    forall bin
      ensures Above(forest, n, bin) <==> exists c :: c in ChildrenIn(forest, nodes, n) && Above(forest, c, bin)
    {
      AboveThroughChild(forest, nodes, n, bin);
    }
    if Touched(forest, n, cfg) {
      var s :| s in cfg.home && (Above(forest, n, cfg.home[s]) || (s in cfg.moves && Above(forest, n, cfg.moves[s])));
      var bin := if Above(forest, n, cfg.home[s]) then cfg.home[s] else cfg.moves[s];
      var c :| c in ChildrenIn(forest, nodes, n) && Above(forest, c, bin);
      assert Touched(forest, c, cfg);
    }
  }

  // ----- Conservation -----

  /** Every shard's bin has its ancestor of this domain inside the layer. */
  ghost predicate Covers(forest: Forest, layer: set<Node>, domain: Domain, cfg: Config) {
    && (forall n :: n in layer ==> n.domain == domain)
    && forall s :: s in cfg.home ==>
         var a := AncestorAt(forest, Node(BIN_DOMAIN, cfg.BinOf(s)), domain);
         a.Some? && a.value in layer
  }

  /** The values of a layer that covers all bins add up to the total weight, whatever was moved. */
  lemma LayerTotal(forest: Forest, weight: DomainId -> int, layer: set<Node>, domain: Domain, cfg: Config)
    requires Covers(forest, layer, domain, cfg)
    ensures SumOver(layer, LoadOfNode(forest, weight, cfg)) == SumOver(cfg.home.Keys, weight)
  {
    forall s | s in cfg.home.Keys
      ensures weight(s) == SumOver(layer, ShareOfNode(forest, weight, cfg, s))
    {
      var a := AncestorAt(forest, Node(BIN_DOMAIN, cfg.BinOf(s)), domain).value;
      SumPick(layer, ShareOfNode(forest, weight, cfg, s), a);
      SumConstant(layer - {a}, ShareOfNode(forest, weight, cfg, s), 0);
    }
    SumExchange(cfg.home.Keys, layer,
                (s: DomainId) => ShareOfNode(forest, weight, cfg, s),
                (c: Node) => ShareOfShard(forest, weight, c, cfg),
                weight, LoadOfNode(forest, weight, cfg));
  }

  /** With non-negative weights no node exceeds the total, so a total below 2^31 is never truncated. */
  lemma LoadNeverTruncated(forest: Forest, weight: DomainId -> int, n: Node, cfg: Config)
    requires forall s :: s in cfg.home ==> 0 <= weight(s)
    ensures 0 <= Load(forest, weight, n, cfg) <= SumOver(cfg.home.Keys, weight)
    ensures SumOver(cfg.home.Keys, weight) < TWO_31 ==>
              Narrow(Load(forest, weight, n, cfg)) == Load(forest, weight, n, cfg)
  {
    hide Above, SumOver;
    var nothing := (s: DomainId) => 0;
    SumConstant(cfg.home.Keys, nothing, 0);
    SumMono(cfg.home.Keys, nothing, ShareOfShard(forest, weight, n, cfg));
    SumMono(cfg.home.Keys, ShareOfShard(forest, weight, n, cfg), weight);
  }
}
