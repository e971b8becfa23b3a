/** The two-way index of the domain tree and its restriction to a scope. */
module MappingTree {
  import opened Basics
  import opened Sums
  import opened Placement
  import opened Movements

  datatype TreeIndex = TreeIndex(childToParent: map<Node, map<Domain, DomainId>>,
                                 parentToChildDomain: map<Domain, Domain>,
                                 parentToChild: map<Node, seq<DomainId>>)

  const EMPTY_TREE := TreeIndex(map[], map[], map[])

  /** unordered_map::emplace on the inner map: the first parent per domain wins. */
  function AddParent(m: map<Node, map<Domain, DomainId>>, child: Node, parent: Node): map<Node, map<Domain, DomainId>> {
    var inner := if child in m then m[child] else map[];
    m[child := if parent.domain in inner then inner else inner[parent.domain := parent.id]]
  }

  function AddParents(m: map<Node, map<Domain, DomainId>>, parent: Node, childDomain: Domain, children: seq<DomainId>)
    : map<Node, map<Domain, DomainId>>
  {
    if children == [] then m
    else
      var last := |children| - 1;
      AddParent(AddParents(m, parent, childDomain, children[..last]), Node(childDomain, children[last]), parent)
  }

  function Mapped(t: TreeIndex, parent: Node, childDomain: Domain, children: seq<DomainId>): TreeIndex {
    TreeIndex(AddParents(t.childToParent, parent, childDomain, children),
              t.parentToChildDomain[parent.domain := childDomain],
              t.parentToChild[parent := children])
  }

  // ----- A tree index that represents a forest -----

  ghost predicate IsChildList(forest: Forest, parent: Node, children: seq<DomainId>)
    requires parent.domain >= BIN_DOMAIN
  {
    && NoDuplicates(children)
    && forall id :: id in children <==> ChildOf(forest, Node(parent.domain - 1, id), parent)
  }

  ghost function Listed(domain: Domain, ids: seq<DomainId>): iset<Node> {
    iset c: Node | c.domain == domain && c.id in ids
  }

  ghost predicate ChildOf(forest: Forest, child: Node, parent: Node) {
    child in forest && forest[child] == parent
  }

  ghost predicate ParentsMatch(m: map<Node, map<Domain, DomainId>>, forest: Forest, listed: iset<Node>) {
    && (forall c :: c in m <==> c in listed)
    && (forall c :: c in m ==> c in forest && m[c] == map[forest[c].domain := forest[c].id])
  }

  ghost function ChildrenOfAll(forest: Forest, nodes: set<Node>): iset<Node> {
    iset c | c in forest && forest[c] in nodes
  }

  /**
   The index holds exactly the edges of the forest whose parent is one of the
   nodes, and its parent-to-child and child-to-parent halves are inverse.
   */
  ghost predicate Represents(t: TreeIndex, forest: Forest, nodes: set<Node>) {
    && t.parentToChild.Keys == nodes
    && ParentsMatch(t.childToParent, forest, ChildrenOfAll(forest, nodes))
    && (forall p :: p in nodes ==> p.domain >= BIN_DOMAIN && p.domain in t.parentToChildDomain)
    && (forall p :: p in nodes ==> IsChildList(forest, p, t.parentToChild[p]))
    && (forall d :: d in t.parentToChildDomain ==> d >= BIN_DOMAIN && t.parentToChildDomain[d] == d - 1)
  }

  // ----- Trees in which a parent may lie several domains above its children -----

  ghost predicate IsListOf(forest: Forest, parent: Node, childDomain: Domain, children: seq<DomainId>) {
    forall c :: ChildOf(forest, c, parent) <==> c.domain == childDomain && c.id in children
  }

  /** Like Represents, for a forest that need not be layered; only bins must not list a child twice. */
  ghost predicate Indexes(t: TreeIndex, forest: Forest, nodes: set<Node>) {
    && t.parentToChild.Keys == nodes
    && ParentsMatch(t.childToParent, forest, ChildrenOfAll(forest, nodes))
    && (forall d :: d in t.parentToChildDomain ==> d >= BIN_DOMAIN)
    && (forall p :: p in nodes ==> p.domain in t.parentToChildDomain)
    && (forall p :: p in nodes ==> IsListOf(forest, p, t.parentToChildDomain[p.domain], t.parentToChild[p]))
    && (forall p :: p in nodes && p.domain == BIN_DOMAIN ==>
          t.parentToChildDomain[BIN_DOMAIN] == SHARD_DOMAIN && NoDuplicates(t.parentToChild[p]))
  }

  /** Children of every node lie in the domain just below it. */
  ghost predicate Dense(t: TreeIndex) {
    forall d :: d in t.parentToChildDomain ==> d >= BIN_DOMAIN && t.parentToChildDomain[d] == d - 1
  }

  lemma LayeredIndexes(t: TreeIndex, forest: Forest, nodes: set<Node>)
    requires Represents(t, forest, nodes) && Layered(forest)
    ensures Indexes(t, forest, nodes) && Dense(t)
  {
    hide ParentsMatch;
    forall p | p in nodes
      ensures IsListOf(forest, p, t.parentToChildDomain[p.domain], t.parentToChild[p])
    {
      assert IsChildList(forest, p, t.parentToChild[p]);
      forall c
        ensures ChildOf(forest, c, p) <==> c.domain == p.domain - 1 && c.id in t.parentToChild[p]
      {
        if c.domain == p.domain - 1 {
          assert c == Node(p.domain - 1, c.id);
        }
      }
    }
    forall p | p in nodes && p.domain == BIN_DOMAIN
      ensures NoDuplicates(t.parentToChild[p])
    {
      assert IsChildList(forest, p, t.parentToChild[p]);
    }
  }

  lemma AddParentMatch(m: map<Node, map<Domain, DomainId>>, forest: Forest, listed: iset<Node>, child: Node)
    requires ParentsMatch(m, forest, listed) && child in forest
    ensures ParentsMatch(AddParent(m, child, forest[child]), forest, listed + iset{child})
  {
  }

  lemma {:induction false} AddParentsMatch(m: map<Node, map<Domain, DomainId>>, forest: Forest, listed: iset<Node>,
                                           parent: Node, childDomain: Domain, children: seq<DomainId>)
    requires ParentsMatch(m, forest, listed)
    requires forall id :: id in children ==> ChildOf(forest, Node(childDomain, id), parent)
    ensures ParentsMatch(AddParents(m, parent, childDomain, children), forest, listed + Listed(childDomain, children))
  {
    hide ParentsMatch, AddParent;
    if children == [] {
      assert listed + Listed(childDomain, children) == listed;
    } else {
      var front, last := children[..|children| - 1], children[|children| - 1];
      assert children == front + [last];
      AddParentsMatch(m, forest, listed, parent, childDomain, front);
      AddParentMatch(AddParents(m, parent, childDomain, front), forest, listed + Listed(childDomain, front),
                     Node(childDomain, last));
      assert Listed(childDomain, children) == Listed(childDomain, front) + iset{Node(childDomain, last)};
      assert listed + Listed(childDomain, children)
          == listed + Listed(childDomain, front) + iset{Node(childDomain, last)};
    }
  }

  lemma MappedRepresents(t: TreeIndex, forest: Forest, nodes: set<Node>, parent: Node, children: seq<DomainId>)
    requires Represents(t, forest, nodes) && Layered(forest)
    requires parent.domain >= BIN_DOMAIN && IsChildList(forest, parent, children)
    ensures Represents(Mapped(t, parent, parent.domain - 1, children), forest, nodes + {parent})
  {
    hide ParentsMatch, AddParents, IsChildList;
    AddParentsMatchChildren(t, forest, nodes, parent, children);
  }

  lemma AddParentsMatchChildren(t: TreeIndex, forest: Forest, nodes: set<Node>, parent: Node, children: seq<DomainId>)
    requires ParentsMatch(t.childToParent, forest, ChildrenOfAll(forest, nodes)) && Layered(forest)
    requires parent.domain >= BIN_DOMAIN && IsChildList(forest, parent, children)
    ensures ParentsMatch(AddParents(t.childToParent, parent, parent.domain - 1, children), forest,
              ChildrenOfAll(forest, nodes + {parent}))
  {
    hide ParentsMatch, AddParents;
    AddParentsMatch(t.childToParent, forest, ChildrenOfAll(forest, nodes), parent, parent.domain - 1, children);
    var listed := ChildrenOfAll(forest, nodes) + Listed(parent.domain - 1, children);
    forall c
      ensures c in listed <==> c in ChildrenOfAll(forest, nodes + {parent})
    {
      if ChildOf(forest, c, parent) {
        assert c == Node(parent.domain - 1, c.id);
        assert c.id in children;
      }
    }
    assert listed == ChildrenOfAll(forest, nodes + {parent});
  }

  lemma AddOneParent(m: map<Node, map<Domain, DomainId>>, parent: Node, child: DomainId)
    requires parent.domain >= BIN_DOMAIN
    ensures AddParents(m, parent, parent.domain - 1, [child]) == AddParent(m, Node(parent.domain - 1, child), parent)
  {
    var none: seq<DomainId> := [];
    assert [child][..0] == none;
    assert AddParents(m, parent, parent.domain - 1, none) == m;
  }

  /**
   Why a node may be listed under one parent only: a second parent in the same
   domain lists the child, but the child keeps its first parent.
   */
  lemma SecondParentIgnored(t: TreeIndex, p: Node, q: Node, child: DomainId)
    requires p != q && p.domain == q.domain && p.domain >= BIN_DOMAIN
    requires Node(p.domain - 1, child) !in t.childToParent
    ensures var u := Mapped(Mapped(t, p, p.domain - 1, [child]), q, q.domain - 1, [child]);
            && u.childToParent[Node(p.domain - 1, child)] == map[p.domain := p.id]
            && u.parentToChild[p] == [child] && u.parentToChild[q] == [child]
            && forall forest, nodes :: !Represents(u, forest, nodes)
  {
    var c := Node(p.domain - 1, child);
    var once := Mapped(t, p, p.domain - 1, [child]);
    var u := Mapped(once, q, q.domain - 1, [child]);
    AddOneParent(t.childToParent, p, child);
    AddOneParent(once.childToParent, q, child);
    assert once.childToParent == AddParent(t.childToParent, c, p);
    assert u.childToParent == AddParent(once.childToParent, c, q);
    assert child in u.parentToChild[p] && child in u.parentToChild[q];
    forall forest, nodes
      ensures !Represents(u, forest, nodes)
    {
    }
  }

  // ----- Restriction to a scope -----

  /** Climbing from the node to the scope's domain ends in one of the scope's ids. */
  ghost predicate Reaches(forest: Forest, n: Node, domain: Domain, scope: seq<DomainId>) {
    exists id :: id in scope && AncestorAt(forest, n, domain) == Some(Node(domain, id))
  }

  lemma ReachesThroughParent(forest: Forest, n: Node, domain: Domain, scope: seq<DomainId>)
    requires Layered(forest) && n in forest && n.domain < domain
    ensures Reaches(forest, n, domain, scope) <==> Reaches(forest, forest[n], domain, scope)
  {
  }

  function ChildrenAt(t: TreeIndex, n: Node): seq<DomainId> {
    if n in t.parentToChild then t.parentToChild[n] else []
  }

  function NodesOf(domain: Domain, ids: seq<DomainId>): seq<Node> {
    seq(|ids|, i requires 0 <= i < |ids| => Node(domain, ids[i]))
  }

  lemma InNodesOf(domain: Domain, ids: seq<DomainId>, c: Node)
    ensures c in NodesOf(domain, ids) <==> c.domain == domain && c.id in ids
  {
    if c.domain == domain && c.id in ids {
      var i :| 0 <= i < |ids| && ids[i] == c.id;
      assert NodesOf(domain, ids)[i] == c;
    }
  }

  /** Number of nodes a work-queue entry unfolds to; the measure of the breadth-first walk. */
  ghost function Unfolded(t: TreeIndex, n: Node): nat
    decreases n.domain, 1, 0
  {
    if n.domain == 0 then 1 else 1 + UnfoldedAll(t, n.domain - 1, ChildrenAt(t, n))
  }

  ghost function UnfoldedAll(t: TreeIndex, domain: Domain, ids: seq<DomainId>): nat
    decreases domain, 2, |ids|
  {
    if ids == [] then 0 else Unfolded(t, Node(domain, ids[0])) + UnfoldedAll(t, domain, ids[1..])
  }

  ghost function QueueSize(t: TreeIndex, queue: seq<Node>): nat {
    if queue == [] then 0 else Unfolded(t, queue[0]) + QueueSize(t, queue[1..])
  }

  lemma {:induction false} QueueSizeAppend(t: TreeIndex, a: seq<Node>, b: seq<Node>)
    ensures QueueSize(t, a + b) == QueueSize(t, a) + QueueSize(t, b)
  {
    if a == [] {
      assert a + b == b;
    } else {
      assert (a + b)[1..] == a[1..] + b;
      QueueSizeAppend(t, a[1..], b);
    }
  }

  lemma {:induction false} QueueSizeOfChildren(t: TreeIndex, domain: Domain, ids: seq<DomainId>)
    ensures QueueSize(t, NodesOf(domain, ids)) == UnfoldedAll(t, domain, ids)
  {
    if ids != [] {
      assert NodesOf(domain, ids)[1..] == NodesOf(domain, ids[1..]);
      QueueSizeOfChildren(t, domain, ids[1..]);
    }
  }

  /** Every node that reaches the scope is in a set that holds the scope and is closed downwards. */
  lemma {:induction false} ClosedSetIsComplete(forest: Forest, domains: set<Domain>, domain: Domain,
                                               scope: seq<DomainId>,
                                               done: set<Node>, n: Node)
    requires Layered(forest)
    requires forall id :: id in scope && domain in domains ==> Found(done, [], Node(domain, id))
    requires forall c :: c in forest && forest[c] in done && c.domain in domains ==> Found(done, [], c)
    requires forall c :: c in forest && c.domain in domains ==> forest[c].domain in domains
    requires Reaches(forest, n, domain, scope) && n.domain in domains
    ensures n in done
    decreases domain - n.domain
  {
    if n.domain < domain {
      ReachesThroughParent(forest, n, domain, scope);
      ClosedSetIsComplete(forest, domains, domain, scope, done, forest[n]);
    }
  }

  lemma {:induction false} AncestorsBelow(forest: Forest, n: Node, low: Domain, high: Domain)
    requires Layered(forest) && n.domain <= low <= high && AncestorAt(forest, n, high).Some?
    ensures AncestorAt(forest, n, low).Some?
    decreases low - n.domain
  {
    if n.domain < low {
      AncestorsBelow(forest, forest[n], low, high);
    }
  }

  // ----- Parents and children under movement maps -----

  ghost predicate HasBins(t: TreeIndex) {
    exists b :: Node(BIN_DOMAIN, b) in t.parentToChild
  }

  ghost function StaticParents(t: TreeIndex, n: Node): set<Node> {
    if n in t.childToParent then set d | d in t.childToParent[n] :: Node(d, t.childToParent[n][d]) else {}
  }

  ghost function MovedParents(t: TreeIndex, shard: DomainId, nexts: seq<ShardBins>): seq<Node> {
    if nexts == [] then []
    else
      var last := nexts[|nexts| - 1];
      MovedParents(t, shard, nexts[..|nexts| - 1])
      + if shard in last && Node(BIN_DOMAIN, last[shard]) in t.parentToChild then [Node(BIN_DOMAIN, last[shard])]
          else []
  }

  lemma NoMovedParents(t: TreeIndex, shard: DomainId)
    ensures MovedParents(t, shard, []) == []
  {
  }

  lemma MovedParentsStep(t: TreeIndex, shard: DomainId, nexts: seq<ShardBins>, i: nat)
    requires i < |nexts|
    ensures MovedParents(t, shard, nexts[..i + 1]) == MovedParents(t, shard, nexts[..i])
         + if shard in nexts[i] && Node(BIN_DOMAIN, nexts[i][shard]) in t.parentToChild
             then [Node(BIN_DOMAIN, nexts[i][shard])] else []
  {
    assert nexts[..i + 1][..i] == nexts[..i];
  }

  lemma ElementsOfAppend<T>(xs: seq<T>, x: T)
    ensures Elements(xs + [x]) == Elements(xs) + {x}
  {
  }

  lemma {:induction false} DistinctCount<T>(xs: seq<T>)
    requires NoDuplicates(xs)
    ensures |xs| == |Elements(xs)|
  {
    if xs == [] {
      assert Elements(xs) == {};
    } else {
      var front, last := xs[..|xs| - 1], xs[|xs| - 1];
      DistinctCount(front);
      assert xs == front + [last];
      ElementsOfAppend(front, last);
    }
  }

  /** Iteration over a hash set, in any order. */
  method Enumerate(ids: set<DomainId>) returns (list: seq<DomainId>)
    ensures multiset(list) == multiset(ids)
    ensures NoDuplicates(list) && Elements(list) == ids
  {
    list := [];
    var todo := ids;
    while todo != {}
      invariant todo <= ids
      invariant NoDuplicates(list) && Elements(list) == ids - todo
      invariant multiset(list) == multiset(ids - todo)
    {
      var id :| id in todo;
      ElementsOfAppend(list, id);
      assert multiset(ids - (todo - {id})) == multiset(ids - todo) + multiset{id};
      list := list + [id];
      todo := todo - {id};
    }
  }

  /** State of the walk: everything found reaches the scope, and nothing below a copied node is forgotten. */
  ghost predicate Walk(t: TreeIndex, forest: Forest, domain: Domain, scope: seq<DomainId>,
                       reached: set<Node>, queue: seq<Node>)
  {
    && (forall n :: n in reached || n in queue ==> Reaches(forest, n, domain, scope))
    && (forall n :: n in reached ==> n.domain in t.parentToChildDomain)
    && (forall id :: id in scope && domain in t.parentToChildDomain ==> Found(reached, queue, Node(domain, id)))
    && (forall c :: c in forest && forest[c] in reached && c.domain in t.parentToChildDomain ==>
        Found(reached, queue, c))
  }

  ghost predicate Found(reached: set<Node>, queue: seq<Node>, n: Node) {
    n in reached || n in queue
  }

  lemma WalkStart(t: TreeIndex, forest: Forest, domain: Domain, scope: seq<DomainId>)
    ensures Walk(t, forest, domain, scope, {}, NodesOf(domain, scope))
  {
    forall n
      ensures n in NodesOf(domain, scope) <==> n.domain == domain && n.id in scope
    {
      InNodesOf(domain, scope, n);
    }
    forall n | n in NodesOf(domain, scope)
      ensures Reaches(forest, n, domain, scope)
    {
      assert AncestorAt(forest, n, domain) == Some(Node(domain, n.id));
    }
  }

  lemma WalkSkip(t: TreeIndex, forest: Forest, domain: Domain, scope: seq<DomainId>, reached: set<Node>,
                 queue: seq<Node>)
    requires Walk(t, forest, domain, scope, reached, queue)
    requires queue != [] && queue[0].domain !in t.parentToChildDomain
    ensures Walk(t, forest, domain, scope, reached, queue[1..])
  {
    assert queue == [queue[0]] + queue[1..];
    assert forall n: Node :: n.domain in t.parentToChildDomain && Found(reached, queue, n) ==>
        Found(reached, queue[1..], n);
  }

  lemma WalkExpand(t: TreeIndex, forest: Forest, nodes: set<Node>, domain: Domain, scope: seq<DomainId>,
                   reached: set<Node>, queue: seq<Node>)
    requires Represents(t, forest, nodes) && Complete(forest, nodes) && Layered(forest)
    requires Walk(t, forest, domain, scope, reached, queue)
    requires queue != [] && queue[0].domain in t.parentToChildDomain
    ensures IsChildList(forest, queue[0], ChildrenAt(t, queue[0]))
    ensures Walk(t, forest, domain, scope, reached + {queue[0]},
                 queue[1..] + NodesOf(queue[0].domain - 1, ChildrenAt(t, queue[0])))
  {
    hide Represents, Layered, Complete, Reaches;
    var parent := queue[0];
    var kids := ChildrenAt(t, parent);
    ChildListFromIndex(t, forest, nodes, parent);
    NextDomain(t, forest, nodes, parent.domain);
    var more := NodesOf(parent.domain - 1, kids);
    ExpandedKids(forest, parent, kids, domain, scope);
    hide IsChildList, NodesOf;
    forall c | c in forest && forest[c] == parent
      ensures c in more
    {
      assert ChildOf(forest, c, parent);
    }
    assert queue == [parent] + queue[1..];
    assert forall n :: Found(reached, queue, n) ==> Found(reached + {parent}, queue[1..] + more, n);
  }

  lemma ExpandedKids(forest: Forest, parent: Node, kids: seq<DomainId>, domain: Domain, scope: seq<DomainId>)
    requires Layered(forest) && parent.domain >= BIN_DOMAIN && IsChildList(forest, parent, kids)
    requires Reaches(forest, parent, domain, scope)
    ensures forall c :: c in NodesOf(parent.domain - 1, kids) <==> ChildOf(forest, c, parent)
    ensures forall c :: c in NodesOf(parent.domain - 1, kids) ==> Reaches(forest, c, domain, scope)
  {
    hide Reaches;
    forall c
      ensures c in NodesOf(parent.domain - 1, kids) <==> ChildOf(forest, c, parent)
    {
      InNodesOf(parent.domain - 1, kids, c);
      if ChildOf(forest, c, parent) {
        assert c == Node(parent.domain - 1, c.id);
      }
    }
    forall c | ChildOf(forest, c, parent)
      ensures Reaches(forest, c, domain, scope)
    {
      ChildReaches(forest, c, domain, scope);
    }
  }

  lemma ChildReaches(forest: Forest, c: Node, domain: Domain, scope: seq<DomainId>)
    requires Layered(forest) && c in forest && Reaches(forest, forest[c], domain, scope)
    ensures Reaches(forest, c, domain, scope)
  {
    ReachesThroughParent(forest, c, domain, scope);
  }

  /** All edges of the forest lead to one of the nodes. */
  ghost predicate Complete(forest: Forest, nodes: set<Node>) {
    forall c :: c in forest ==> forest[c] in nodes
  }

  lemma ChildListFromIndex(t: TreeIndex, forest: Forest, nodes: set<Node>, n: Node)
    requires Represents(t, forest, nodes) && Complete(forest, nodes) && n.domain in t.parentToChildDomain
    ensures IsChildList(forest, n, ChildrenAt(t, n))
  {
  }

  lemma WalkEnd(t: TreeIndex, forest: Forest, nodes: set<Node>, domain: Domain, scope: seq<DomainId>,
                reached: set<Node>)
    requires Represents(t, forest, nodes) && Complete(forest, nodes) && Layered(forest)
    requires Walk(t, forest, domain, scope, reached, [])
    ensures forall n: Node :: n in reached <==> n.domain in t.parentToChildDomain && Reaches(forest, n, domain, scope)
  {
    forall n: Node | n.domain in t.parentToChildDomain && Reaches(forest, n, domain, scope)
      ensures n in reached
    {
      ClosedSetIsComplete(forest, t.parentToChildDomain.Keys, domain, scope, reached, n);
    }
  }

  lemma QueueShrinks(t: TreeIndex, queue: seq<Node>)
    requires queue != []
    ensures QueueSize(t, queue[1..]) < QueueSize(t, queue)
    ensures queue[0].domain > 0 ==>
              QueueSize(t, queue[1..] + NodesOf(queue[0].domain - 1, ChildrenAt(t, queue[0]))) < QueueSize(t, queue)
  {
    if queue[0].domain > 0 {
      var kids := ChildrenAt(t, queue[0]);
      QueueSizeAppend(t, queue[1..], NodesOf(queue[0].domain - 1, kids));
      QueueSizeOfChildren(t, queue[0].domain - 1, kids);
    }
  }

  /** The tree has bins, and some bin lies at or below a node of the scope. */
  ghost predicate BinInScope(t: TreeIndex, forest: Forest, domain: Domain, scope: seq<DomainId>) {
    BIN_DOMAIN in t.parentToChildDomain && exists b :: Reaches(forest, Node(BIN_DOMAIN, b), domain, scope)
  }

  /**
   getParents of a moved shard looks up the bins of the partial tree and throws
   if there are none, so a scope is usable exactly if it has a bin.
   */
  lemma ScopeUsable(t: TreeIndex, forest: Forest, domain: Domain, scope: seq<DomainId>, partial: TreeIndex,
                    reached: set<Node>)
    requires Represents(partial, forest, reached)
    requires forall n: Node :: n in reached <==> n.domain in t.parentToChildDomain && Reaches(forest, n, domain, scope)
    ensures HasBins(partial) <==> BinInScope(t, forest, domain, scope)
  {
    hide Reaches;
    if BinInScope(t, forest, domain, scope) {
      var b :| Reaches(forest, Node(BIN_DOMAIN, b), domain, scope);
      assert Node(BIN_DOMAIN, b) in partial.parentToChild;
    }
  }

  /** Every domain between the bins and the scope has nodes with children. */
  lemma {:induction false} DomainsFilled(t: TreeIndex, forest: Forest, nodes: set<Node>, b: DomainId, domain: Domain,
                                         d: Domain)
    requires Represents(t, forest, nodes) && Complete(forest, nodes) && Layered(forest)
    requires BIN_DOMAIN in t.parentToChildDomain && BIN_DOMAIN <= d <= domain
    requires AncestorAt(forest, Node(BIN_DOMAIN, b), domain).Some?
    ensures d in t.parentToChildDomain
  {
    var bin := Node(BIN_DOMAIN, b);
    if d > BIN_DOMAIN {
      AncestorsBelow(forest, bin, d, domain);
      AncestorDomain(forest, bin, d);
      var c := LastStep(forest, bin, AncestorAt(forest, bin, d).value);
      assert forest[c] in nodes;
    }
  }

  /** The restricted node set is closed downwards, has the scope on top and contains a bin. */
  lemma ScopeTree(t: TreeIndex, forest: Forest, nodes: set<Node>, domain: Domain, scope: seq<DomainId>,
                  reached: set<Node>)
    requires Represents(t, forest, nodes) && Complete(forest, nodes) && Layered(forest)
    requires BinInScope(t, forest, domain, scope)
    requires forall n: Node :: n in reached <==> n.domain in t.parentToChildDomain && Reaches(forest, n, domain, scope)
    ensures domain >= BIN_DOMAIN
    ensures forall n :: n in reached ==> BIN_DOMAIN <= n.domain <= domain && HasChildren(forest, reached, n)
    ensures forall id: DomainId :: Node(domain, id) in reached <==> id in scope
    ensures exists b :: Node(BIN_DOMAIN, b) in reached
  {
    var b :| Reaches(forest, Node(BIN_DOMAIN, b), domain, scope);
    forall d | BIN_DOMAIN <= d <= domain
      ensures d in t.parentToChildDomain
    {
      DomainsFilled(t, forest, nodes, b, domain, d);
    }
    assert Node(BIN_DOMAIN, b) in reached;
    forall n | n in reached
      ensures BIN_DOMAIN <= n.domain <= domain && HasChildren(forest, reached, n)
    {
      ReachedChildren(t, forest, domain, scope, reached, n);
    }
    forall id: DomainId
      ensures Node(domain, id) in reached <==> id in scope
    {
      assert AncestorAt(forest, Node(domain, id), domain) == Some(Node(domain, id));
    }
  }

  lemma ReachedChildren(t: TreeIndex, forest: Forest, domain: Domain, scope: seq<DomainId>, reached: set<Node>, n: Node)
    requires Layered(forest) && n in reached
    requires forall n: Node :: n in reached <==> n.domain in t.parentToChildDomain && Reaches(forest, n, domain, scope)
    requires forall d :: BIN_DOMAIN <= d <= domain ==> d in t.parentToChildDomain
    ensures n.domain <= domain && HasChildren(forest, reached, n)
  {
    forall c | c in forest && forest[c] == n && c.domain >= BIN_DOMAIN
      ensures c in reached
    {
      ChildReaches(forest, c, domain, scope);
    }
  }

  class SparseMappingTree {
    var childToParentMap: map<Node, map<Domain, DomainId>>
    var parentToChildDomainMap: map<Domain, Domain>
    var parentToChildMap: map<Node, seq<DomainId>>

    constructor ()
      ensures Index() == EMPTY_TREE
    {
      childToParentMap, parentToChildDomainMap, parentToChildMap := map[], map[], map[];
    }

    function Index(): TreeIndex
      reads this
    {
      TreeIndex(childToParentMap, parentToChildDomainMap, parentToChildMap)
    }

    /** Ignored when the parent's domain already has children in another domain. */
    method AddMapping(parent: Node, childDomain: Domain, children: seq<DomainId>)
      modifies this
      ensures parent.domain in old(parentToChildDomainMap) && old(parentToChildDomainMap)[parent.domain] != childDomain
              ==> Index() == old(Index())
      ensures parent.domain !in old(parentToChildDomainMap) || old(parentToChildDomainMap)[parent.domain] == childDomain
              ==> Index() == Mapped(old(Index()), parent, childDomain, children)
    {
      if parent.domain in parentToChildDomainMap && parentToChildDomainMap[parent.domain] != childDomain {
        return;
      }
      parentToChildDomainMap := parentToChildDomainMap[parent.domain := childDomain];
      var i := 0;
      while i < |children|
        invariant 0 <= i <= |children|
        invariant childToParentMap == AddParents(old(childToParentMap), parent, childDomain, children[..i])
        invariant parentToChildDomainMap == old(parentToChildDomainMap)[parent.domain := childDomain]
        invariant parentToChildMap == old(parentToChildMap)
      {
        assert children[..i + 1][..i] == children[..i];
        childToParentMap := AddParent(childToParentMap, Node(childDomain, children[i]), parent);
        i := i + 1;
      }
      assert children[..i] == children;
      parentToChildMap := parentToChildMap[parent := children];
    }

    function GetChildren(n: Node): seq<DomainId>
      reads this
    {
      ChildrenAt(Index(), n)
    }

    function GetChildDomain(domain: Domain): Option<Domain>
      reads this
    {
      Lookup(parentToChildDomainMap, domain)
    }

    /** The entries of childToParentMap, in any order. */
    method GetStaticParents(n: Node) returns (parents: seq<Node>)
      ensures NoDuplicates(parents) && Elements(parents) == StaticParents(Index(), n)
    {
      parents := [];
      if n in childToParentMap {
        var domains := childToParentMap[n].Keys;
        while domains != {}
          invariant domains <= childToParentMap[n].Keys
          invariant NoDuplicates(parents)
          invariant Elements(parents) == set d | d in childToParentMap[n] && d !in domains ::
                      Node(d, childToParentMap[n][d])
        {
          var d :| d in domains;
          ghost var was := parents;
          parents := parents + [Node(d, childToParentMap[n][d])];
          domains := domains - {d};
          ElementsOfAppend(was, Node(d, childToParentMap[n][d]));
        }
      }
    }

    /**
     Static parents, in any order, followed by the target bins of the movement
     maps as far as they belong to this tree.
     */
    method GetParents(n: Node, moves: seq<MovementIndex>) returns (parents: seq<Node>)
      requires n.domain == SHARD_DOMAIN && (exists m :: m in moves && n.id in m.next) ==> HasBins(Index())
      ensures var own := |StaticParents(Index(), n)|;
              && |parents| >= own
              && NoDuplicates(parents[..own]) && Elements(parents[..own]) == StaticParents(Index(), n)
              && parents[own..] == if n.domain == SHARD_DOMAIN then MovedParents(Index(), n.id, Nexts(moves)) else []
    {
      hide StaticParents, MovedParents;
      parents := GetStaticParents(n);
      ghost var fixed := parents;
      DistinctCount(fixed);
      NoMovedParents(Index(), n.id);
      if n.domain == SHARD_DOMAIN {
        var i := 0;
        while i < |moves|
          invariant 0 <= i <= |moves|
          invariant parents == fixed + MovedParents(Index(), n.id, Nexts(moves)[..i])
        {
          MovedParentsStep(Index(), n.id, Nexts(moves), i);
          var parentBin := Lookup(moves[i].next, n.id);
          if parentBin.Some? && Node(BIN_DOMAIN, parentBin.value) in parentToChildMap {
            parents := parents + [Node(BIN_DOMAIN, parentBin.value)];
          }
          i := i + 1;
        }
        assert Nexts(moves)[..i] == Nexts(moves);
      }
    }

    /** Incoming shards of every movement map (bins only) followed by the static children. */
    method GetChildrenWithMoves(n: Node, moves: seq<MovementIndex>) returns (children: seq<DomainId>)
      requires n.domain in parentToChildDomainMap ==> n in parentToChildMap
      ensures n.domain in parentToChildDomainMap ==>
                multiset(children) == multiset(parentToChildMap[n])
                  + if n.domain == BIN_DOMAIN then IncomingTotal(moves, n.id) else multiset{}
      ensures n.domain !in parentToChildDomainMap ==> children == []
    {
      children := [];
      if n.domain !in parentToChildDomainMap {
        return;
      }
      if n.domain == BIN_DOMAIN {
        var i := 0;
        while i < |moves|
          invariant 0 <= i <= |moves|
          invariant multiset(children) == IncomingTotal(moves[..i], n.id)
        {
          assert moves[..i + 1][..i] == moves[..i];
          var incoming := Enumerate(moves[i].Incoming(n.id));
          children := children + incoming;
          i := i + 1;
        }
        assert moves[..i] == moves;
      }
      children := children + parentToChildMap[n];
    }

    /** The ids of a domain: the keys of its child lists, or for a leaf domain the children that were listed. */
    method GetAllDomainIds(domain: Domain) returns (ids: seq<DomainId>)
      ensures NoDuplicates(ids)
      ensures forall id :: id in ids <==>
                Node(domain, id) in (if domain in parentToChildDomainMap then parentToChildMap.Keys
                    else childToParentMap.Keys)
    {
      var keys := if domain in parentToChildDomainMap then parentToChildMap.Keys else childToParentMap.Keys;
      var found := set n | n in keys && n.domain == domain :: n.id;
      assert forall id :: id in found <==> Node(domain, id) in keys;
      ids := Enumerate(found);
      assert forall id :: id in ids <==> id in Elements(ids);
    }

    /** Breadth-first copy of everything at or below the scope. */
    method CreatePartialTree(domain: Domain, scope: seq<DomainId>, ghost forest: Forest, ghost nodes: set<Node>)
      returns (partial: SparseMappingTree, ghost reached: set<Node>)
      requires Represents(Index(), forest, nodes) && Complete(forest, nodes) && Layered(forest)
      ensures fresh(partial) && Represents(partial.Index(), forest, reached) && DomainsUsed(partial.Index(), reached)
      ensures forall n: Node :: n in reached
                <==> n.domain in parentToChildDomainMap && Reaches(forest, n, domain, scope)
    {
      hide Represents, Walk, Mapped, Layered, Complete, ChildrenAt, NodesOf, QueueSize, DomainsUsed;
      partial := new SparseMappingTree();
      reached := {};
      EmptyRepresents(forest);
      var queue := NodesOf(domain, scope);
      WalkStart(Index(), forest, domain, scope);
      ghost var t := Index();
      while queue != []
        invariant fresh(partial) && Represents(partial.Index(), forest, reached)
                    && DomainsUsed(partial.Index(), reached)
        invariant Walk(t, forest, domain, scope, reached, queue)
        decreases QueueSize(t, queue)
      {
        var parent := queue[0];
        var children := GetChildren(parent);
        var childDomain := GetChildDomain(parent.domain);
        QueueShrinks(t, queue);
        if childDomain.None? {
          WalkSkip(t, forest, domain, scope, reached, queue);
          queue := queue[1..];
        } else {
          WalkExpand(t, forest, nodes, domain, scope, reached, queue);
          NextDomain(t, forest, nodes, parent.domain);
          NextDomain(partial.Index(), forest, reached, parent.domain);
          MappedRepresents(partial.Index(), forest, reached, parent, children);
          MappedDomains(partial.Index(), reached, parent, childDomain.value, children);
          partial.AddMapping(parent, childDomain.value, children);
          reached := reached + {parent};
          queue := queue[1..] + NodesOf(childDomain.value, children);
        }
      }
      WalkEnd(t, forest, nodes, domain, scope, reached);
    }
  }

  lemma EmptyRepresents(forest: Forest)
    ensures Represents(EMPTY_TREE, forest, {}) && DomainsUsed(EMPTY_TREE, {})
  {
  }

  /** Only domains of listed nodes have a child domain. */
  ghost predicate DomainsUsed(t: TreeIndex, nodes: set<Node>) {
    forall d :: d in t.parentToChildDomain ==> exists n :: n in nodes && n.domain == d
  }

  lemma MappedDomains(t: TreeIndex, nodes: set<Node>, parent: Node, childDomain: Domain, children: seq<DomainId>)
    requires DomainsUsed(t, nodes)
    ensures DomainsUsed(Mapped(t, parent, childDomain, children), nodes + {parent})
  {
    var u := Mapped(t, parent, childDomain, children);
    forall d | d in u.parentToChildDomain
      ensures exists n :: n in nodes + {parent} && n.domain == d
    {
      if d == parent.domain {
        assert parent in nodes + {parent};
      } else {
        var n :| n in nodes && n.domain == d;
        assert n in nodes + {parent};
      }
    }
  }

  lemma NextDomain(t: TreeIndex, forest: Forest, nodes: set<Node>, domain: Domain)
    requires Represents(t, forest, nodes)
    ensures domain in t.parentToChildDomain ==> domain >= BIN_DOMAIN && t.parentToChildDomain[domain] == domain - 1
  {
  }

}
