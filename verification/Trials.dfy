/**
 The first round of an evaluation: which bins are notified about which shards
 when a tree is initialised and when canary moves are tried.
 */
module Trials {
  import opened Basics
  import opened Sums
  import opened Placement
  import opened Movements
  import opened MappingTree
  import opened Evaluation
  import opened Propagation

  /** The shard's home or the target of its canary move. */
  predicate Endpoint(w: World, next: ShardBins, shard: DomainId, bin: DomainId) {
    shard in w.home && (w.home[shard] == bin || (shard in next && next[shard] == bin))
  }

  /** Each bin of the tree has been told once about every processed shard that starts or ends there. */
  ghost predicate BinsNotified(updates: Updates, nodes: set<Node>, w: World, next: ShardBins, done: set<DomainId>) {
    && (forall n :: n in updates ==> n in nodes && n.domain == BIN_DOMAIN && updates[n] != [])
    && (forall n :: n in nodes && n.domain == BIN_DOMAIN ==>
          && NoDuplicates(ListAt(updates, n))
          && forall s :: s in ListAt(updates, n) <==> s in done && Endpoint(w, next, s, n.id))
  }

  function NotifyAll(updates: Updates, parents: seq<Node>, shard: DomainId): Updates {
    if parents == [] then updates
    else Notify(NotifyAll(updates, parents[..|parents| - 1], shard), parents[|parents| - 1], shard)
  }

  method NotifyParents(updates: Updates, parents: seq<Node>, id: DomainId) returns (r: Updates)
    ensures r == NotifyAll(updates, parents, id)
  {
    r := updates;
    var i := 0;
    while i < |parents|
      invariant 0 <= i <= |parents|
      invariant r == NotifyAll(updates, parents[..i], id)
    {
      assert parents[..i + 1][..i] == parents[..i];
      r := Notify(r, parents[i], id);
      i := i + 1;
    }
    assert parents[..i] == parents;
  }

  /** Above the shards a node has at most its one parent in the tree. */
  lemma UpperParent(t: TreeIndex, forest: Forest, nodes: set<Node>, n: Node, parents: seq<Node>)
    requires Indexes(t, forest, nodes)
    requires |parents| == |StaticParents(t, n)| && NoDuplicates(parents) && Elements(parents) == StaticParents(t, n)
    ensures parents == if n in forest && forest[n] in nodes then [forest[n]] else []
  {
    assert n in t.childToParent <==> n in ChildrenOfAll(forest, nodes);
    if n in t.childToParent {
      var p := forest[n];
      assert t.childToParent[n] == map[p.domain := p.id];
      assert p.domain in t.childToParent[n] && p == Node(p.domain, t.childToParent[n][p.domain]);
      assert StaticParents(t, n) == {p};
      assert parents[0] in Elements(parents);
    }
  }

  lemma NotifyOne(updates: Updates, p: Node, id: DomainId)
    ensures NotifyAll(updates, [p], id) == Notify(updates, p, id)
    ensures NotifyAll(updates, [], id) == updates
  {
    assert [p][..0] == [];
  }

  lemma {:induction false} NotifyAllList(updates: Updates, parents: seq<Node>, shard: DomainId, n: Node)
    requires NoDuplicates(parents)
    ensures ListAt(NotifyAll(updates, parents, shard), n) == ListAt(updates, n) + if n in parents then [shard] else []
    ensures n in NotifyAll(updates, parents, shard) <==> n in updates || n in parents
  {
    if parents != [] {
      var front, last := parents[..|parents| - 1], parents[|parents| - 1];
      assert parents == front + [last];
      NotifyAllList(updates, front, shard, n);
    }
  }

  /** The parents that the tree reports for a shard are its endpoints in the tree, each once. */
  ghost predicate AreEndpoints(parents: seq<Node>, nodes: set<Node>, w: World, next: ShardBins, shard: DomainId) {
    && NoDuplicates(parents)
    && forall p :: p in parents <==> p in nodes && p.domain == BIN_DOMAIN && Endpoint(w, next, shard, p.id)
  }

  lemma ShardNotified(updates: Updates, nodes: set<Node>, w: World, next: ShardBins, done: set<DomainId>,
                      parents: seq<Node>, shard: DomainId)
    requires BinsNotified(updates, nodes, w, next, done) && shard !in done
    requires AreEndpoints(parents, nodes, w, next, shard)
    ensures BinsNotified(NotifyAll(updates, parents, shard), nodes, w, next, done + {shard})
  {
    hide NotifyAll, Endpoint, AreEndpoints;
    var now := NotifyAll(updates, parents, shard);
    forall n | n in now
      ensures n in nodes && n.domain == BIN_DOMAIN && now[n] != []
    {
      NodeNotified(updates, nodes, w, next, done, parents, shard, n);
    }
    forall n | n in nodes && n.domain == BIN_DOMAIN
      ensures NoDuplicates(ListAt(now, n))
      ensures forall s :: s in ListAt(now, n) <==> s in done + {shard} && Endpoint(w, next, s, n.id)
    {
      NodeNotified(updates, nodes, w, next, done, parents, shard, n);
    }
  }

  lemma NodeNotified(updates: Updates, nodes: set<Node>, w: World, next: ShardBins, done: set<DomainId>,
                     parents: seq<Node>, shard: DomainId, n: Node)
    requires BinsNotified(updates, nodes, w, next, done) && shard !in done
    requires AreEndpoints(parents, nodes, w, next, shard)
    ensures var now := NotifyAll(updates, parents, shard);
            && (n in now ==> n in nodes && n.domain == BIN_DOMAIN && now[n] != [])
            && (n in nodes && n.domain == BIN_DOMAIN ==>
                  && NoDuplicates(ListAt(now, n))
                  && forall s :: s in ListAt(now, n) <==> s in done + {shard} && Endpoint(w, next, s, n.id))
  {
    NotifyAllList(updates, parents, shard, n);
    hide NotifyAll, Endpoint;
    var now := NotifyAll(updates, parents, shard);
    assert n in parents <==> n in nodes && n.domain == BIN_DOMAIN && Endpoint(w, next, shard, n.id);
    assert n in now ==> now[n] == ListAt(now, n);
  }

  lemma NothingNotified(nodes: set<Node>, w: World, next: ShardBins)
    ensures BinsNotified(map[], nodes, w, next, {})
  {
  }

  /** Static parents of a shard: its home bin, if it belongs to the tree. */
  lemma HomeParent(t: TreeIndex, nodes: set<Node>, w: World, shard: DomainId)
    requires w.Valid() && Indexes(t, w.forest, nodes)
    ensures StaticParents(t, Node(SHARD_DOMAIN, shard))
         == if shard in w.home && Node(BIN_DOMAIN, w.home[shard]) in nodes then {Node(BIN_DOMAIN, w.home[shard])}
             else {}
  {
    var n := Node(SHARD_DOMAIN, shard);
    assert n in t.childToParent <==> n in ChildrenOfAll(w.forest, nodes);
    if n in t.childToParent {
      var home := w.home[shard];
      assert t.childToParent[n] == map[BIN_DOMAIN := home];
      assert BIN_DOMAIN in t.childToParent[n] && t.childToParent[n][BIN_DOMAIN] == home;
      assert Node(BIN_DOMAIN, home) in StaticParents(t, n);
    }
  }

  ghost function TargetIn(t: TreeIndex, next: ShardBins, shard: DomainId): seq<Node> {
    if shard in next && Node(BIN_DOMAIN, next[shard]) in t.parentToChild then [Node(BIN_DOMAIN, next[shard])] else []
  }

  lemma TargetsOfThree(t: TreeIndex, committed: ShardBins, next: ShardBins, shard: DomainId)
    requires shard !in committed
    ensures MovedParents(t, shard, [map[], committed, next]) == TargetIn(t, next, shard)
  {
    var still: seq<ShardBins> := [map[]];
    var three := still + [committed, next];
    assert three == [map[], committed, next];
    assert three[..2] == still + [committed] && (still + [committed])[..1] == still && still[..0] == [];
    assert MovedParents(t, shard, []) == [];
    assert MovedParents(t, shard, still) == [];
    assert MovedParents(t, shard, still + [committed]) == [];
  }

  lemma TargetsOfOne(t: TreeIndex, shard: DomainId)
    ensures MovedParents(t, shard, [map[]]) == []
  {
    var still: seq<ShardBins> := [map[]];
    assert still[..0] == [];
  }

  /** What getParents returns for a shard that has not moved and is tried away from home. */
  lemma ParentsAreEndpoints(t: TreeIndex, nodes: set<Node>, w: World, next: ShardBins, shard: DomainId,
                            parents: seq<Node>, own: nat)
    requires w.Valid() && Indexes(t, w.forest, nodes) && shard in w.home
    requires shard in next ==> next[shard] != w.home[shard]
    requires own <= |parents| && own == |StaticParents(t, Node(SHARD_DOMAIN, shard))|
    requires NoDuplicates(parents[..own]) && Elements(parents[..own]) == StaticParents(t, Node(SHARD_DOMAIN, shard))
    requires parents[own..] == TargetIn(t, next, shard)
    ensures AreEndpoints(parents, nodes, w, next, shard)
  {
    HomeParent(t, nodes, w, shard);
    assert t.parentToChild.Keys == nodes;
    hide Indexes, StaticParents, Elements, NoDuplicates;
    var homeBin := Node(BIN_DOMAIN, w.home[shard]);
    if homeBin in nodes {
      OnlyElement(parents[..own], homeBin);
    } else {
      assert own == 0;
    }
    JoinEndpoints(parents, own, nodes, w, next, shard);
  }

  lemma OnlyElement<T>(xs: seq<T>, x: T)
    requires |xs| == 1 && Elements(xs) == {x}
    ensures xs == [x]
  {
    assert xs[0] in Elements(xs);
  }

  lemma JoinEndpoints(parents: seq<Node>, own: nat, nodes: set<Node>, w: World, next: ShardBins, shard: DomainId)
    requires own <= |parents| && shard in w.home && (shard in next ==> next[shard] != w.home[shard])
    requires parents[..own] == if Node(BIN_DOMAIN, w.home[shard]) in nodes then [Node(BIN_DOMAIN, w.home[shard])]
               else []
    requires parents[own..] == if shard in next && Node(BIN_DOMAIN, next[shard]) in nodes
               then [Node(BIN_DOMAIN, next[shard])] else []
    ensures AreEndpoints(parents, nodes, w, next, shard)
  {
    assert parents == parents[..own] + parents[own..];
  }

  // ----- The first round can start -----

  /** A trial: canary moves of unmoved shards, all away from home, on top of committed moves. */
  ghost predicate TrialMoves(w: World, committed: ShardBins, next: ShardBins) {
    && committed.Keys !! next.Keys
    && forall s :: s in next ==> s in w.home && next[s] != w.home[s]
  }

  ghost predicate TrialContext(ctx: Context, committed: MovementIndex, canary: MovementIndex) {
    && TrialMoves(ctx.w, committed.next, canary.next)
    && ctx.moves == [NO_MOVES, committed, canary]
    && ctx.before == Config(ctx.w.home, committed.next)
    && ctx.after == Config(ctx.w.home, committed.next + canary.next)
  }

  lemma TrialListing(ctx: Context, committed: MovementIndex, canary: MovementIndex, updates: Updates, n: Node)
    requires TrialContext(ctx, committed, canary)
    requires BinsNotified(updates, ctx.nodes, ctx.w, canary.next, canary.next.Keys)
    requires n in ctx.nodes && n.domain == BIN_DOMAIN
    ensures ctx.BinListing(updates, n)
  {
    var list := ListAt(updates, n);
    forall s
      ensures s in list <==> ctx.before.Holds(n.id, s) != ctx.after.Holds(n.id, s)
    {
      assert s in list <==> s in canary.next && Endpoint(ctx.w, canary.next, s, n.id);
    }
    var nexts := Nexts(ctx.moves);
    assert nexts == [map[], committed.next, canary.next];
    forall s | s in list
      ensures IsFutureChild(nexts, s, n.id) <==> ctx.after.Holds(n.id, s)
    {
      assert s in canary.next && canary.next in nexts;
    }
    TrialTouched(ctx, committed, canary, updates, n);
  }

  lemma TrialTouched(ctx: Context, committed: MovementIndex, canary: MovementIndex, updates: Updates, n: Node)
    requires TrialContext(ctx, committed, canary)
    requires BinsNotified(updates, ctx.nodes, ctx.w, canary.next, canary.next.Keys)
    requires n in ctx.nodes && n.domain == BIN_DOMAIN
    ensures Touched(ctx.w.forest, n, ctx.after) <==> Touched(ctx.w.forest, n, ctx.before) || n in updates
  {
    forall b
      ensures Above(ctx.w.forest, n, b) <==> b == n.id
    {
    }
    if n in updates {
      var s := updates[n][0];
      assert s in ListAt(updates, n);
      assert Endpoint(ctx.w, canary.next, s, n.id);
      assert s in ctx.after.home && s in ctx.after.moves;
    }
    if Touched(ctx.w.forest, n, ctx.after) && !Touched(ctx.w.forest, n, ctx.before) {
      var s :| s in ctx.after.home
          && (Above(ctx.w.forest, n, ctx.after.home[s])
          || (s in ctx.after.moves && Above(ctx.w.forest, n, ctx.after.moves[s])));
      assert s in ctx.before.home;
      assert s in canary.next && canary.next[s] == n.id;
      assert s in ListAt(updates, n);
    }
  }

  lemma TrialStarts(ctx: Context, committed: MovementIndex, canary: MovementIndex, updates: Updates)
    requires ctx.Valid() && TrialContext(ctx, committed, canary)
    requires BinsNotified(updates, ctx.nodes, ctx.w, canary.next, canary.next.Keys)
    ensures ctx.RoundStart(map[], BIN_DOMAIN, updates)
  {
    forall n | n in ctx.nodes && n.domain == BIN_DOMAIN
      ensures ctx.Listing(updates, map[], n)
    {
      TrialListing(ctx, committed, canary, updates, n);
    }
    forall q | q in ctx.nodes && q.domain == ctx.Next(BIN_DOMAIN)
      ensures ctx.Listing(map[], map[], q)
    {
      ctx.EmptyListing(map[], q);
    }
  }

  ghost predicate InitialContext(ctx: Context) {
    && ctx.moves == [NO_MOVES] && ctx.committed == map[]
    && ctx.before == NOWHERE && ctx.after == Config(ctx.w.home, map[])
  }

  ghost predicate HomedIn(w: World, nodes: set<Node>, shards: set<DomainId>) {
    forall s :: s in shards <==> s in w.home && Node(BIN_DOMAIN, w.home[s]) in nodes
  }

  lemma InitialListing(ctx: Context, updates: Updates, shards: set<DomainId>, n: Node)
    requires InitialContext(ctx) && HomedIn(ctx.w, ctx.nodes, shards)
    requires BinsNotified(updates, ctx.nodes, ctx.w, map[], shards)
    requires n in ctx.nodes && n.domain == BIN_DOMAIN
    ensures ctx.BinListing(updates, n)
  {
    var list := ListAt(updates, n);
    assert n == Node(BIN_DOMAIN, n.id);
    forall s
      ensures s in list <==> ctx.after.Holds(n.id, s)
    {
      assert s in list <==> s in shards && Endpoint(ctx.w, map[], s, n.id);
    }
    assert Nexts(ctx.moves) == [map[]];
    forall b
      ensures Above(ctx.w.forest, n, b) <==> b == n.id
    {
    }
    if n in updates {
      assert updates[n][0] in list;
    }
    if Touched(ctx.w.forest, n, ctx.after) {
      var s :| s in ctx.w.home && Above(ctx.w.forest, n, ctx.w.home[s]);
      assert s in list;
    }
  }

  lemma InitialStarts(ctx: Context, updates: Updates, shards: set<DomainId>)
    requires ctx.Valid() && InitialContext(ctx) && HomedIn(ctx.w, ctx.nodes, shards)
    requires BinsNotified(updates, ctx.nodes, ctx.w, map[], shards)
    ensures ctx.RoundStart(map[], BIN_DOMAIN, updates)
  {
    forall n | n in ctx.nodes && n.domain == BIN_DOMAIN
      ensures ctx.Listing(updates, map[], n)
    {
      InitialListing(ctx, updates, shards, n);
    }
    forall q | q in ctx.nodes && q.domain == ctx.Next(BIN_DOMAIN)
      ensures ctx.Listing(map[], map[], q)
    {
      ctx.EmptyListing(map[], q);
    }
  }

  /** The shards that a tree knows are those whose home bin belongs to it. */
  lemma ShardsOfTree(t: TreeIndex, nodes: set<Node>, w: World, ids: seq<DomainId>)
    requires w.Valid() && Indexes(t, w.forest, nodes)
    requires forall id :: id in ids <==>
               Node(SHARD_DOMAIN, id) in (if SHARD_DOMAIN in t.parentToChildDomain then t.parentToChild.Keys
                   else t.childToParent.Keys)
    ensures HomedIn(w, nodes, Elements(ids))
  {
    forall s
      ensures s in Elements(ids) <==> s in w.home && Node(BIN_DOMAIN, w.home[s]) in nodes
    {
      assert Node(SHARD_DOMAIN, s) in t.childToParent <==> Node(SHARD_DOMAIN, s) in ChildrenOfAll(w.forest, nodes);
    }
  }
}
