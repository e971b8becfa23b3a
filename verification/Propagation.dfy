/**
 One round of change propagation, on values.  A round evaluates the notified
 nodes of one domain in any order, writes changed values to the canary layer
 and notifies the parents of the nodes it wrote.
 */
module Propagation {
  import opened Basics
  import opened Sums
  import opened Placement
  import opened Evaluation
  import opened Movements

  type Updates = map<Node, seq<DomainId>>

  function ListAt(updates: Updates, n: Node): seq<DomainId> {
    if n in updates then updates[n] else []
  }

  /** toUpdate[parent].emplace_back(id) */
  function Notify(updates: Updates, parent: Node, id: DomainId): Updates {
    updates[parent := ListAt(updates, parent) + [id]]
  }

  /**
   A tree over the bins: the domains from the bins to `top`, and possibly a root
   in some higher domain.  Sums need every parent in the domain next to its children's.
   */
  ghost predicate TreeShape(op: Operator, forest: Forest, nodes: set<Node>, top: Domain, root: Domain) {
    && Rising(forest) && (op.MetricSum? ==> Layered(forest)) && BIN_DOMAIN <= top < root
    && (forall n :: n in nodes ==> BIN_DOMAIN <= n.domain && (n.domain <= top || n.domain == root))
    && (forall n :: n in nodes ==> HasChildren(forest, nodes, n))
    && (forall n :: n in nodes && n in forest && forest[n] in nodes ==> forest[n].domain == Over(top, root, n.domain))
  }

  /** The domain of the parents of this domain's nodes. */
  function Over(top: Domain, root: Domain, domain: Domain): Domain {
    if domain == top then root else domain + 1
  }

  // ----- Counts above the bins -----

  /** The count operator does not follow the placement above the bins: there it counts changed children. */
  predicate Counting(op: Operator, n: Node) {
    op.ShardCount? && n.domain > BIN_DOMAIN
  }

  ghost function CanaryChildren(forest: Forest, nodes: set<Node>, canary: Values, n: Node): set<Node> {
    set c | c in ChildrenIn(forest, nodes, n) && c in canary
  }

  ghost function CountedValue(forest: Forest, nodes: set<Node>, committed: Values, canary: Values, n: Node): int {
    Narrow(ValueOrZero(committed, n) + |CanaryChildren(forest, nodes, canary, n)|)
  }

  /** What an evaluation leaves at such a node: one more for each child whose value was written. */
  ghost predicate Counted(forest: Forest, nodes: set<Node>, committed: Values, canary: Values, n: Node) {
    if CanaryChildren(forest, nodes, canary, n) == {} then n !in canary
    else Lookup(committed + canary, n) == Some(CountedValue(forest, nodes, committed, canary, n))
  }

  /** Only values that differ from the committed ones are written. */
  ghost predicate OnlyChanges(committed: Values, canary: Values) {
    forall n :: n in canary ==> Lookup(committed, n) != Some(canary[n])
  }

  lemma ChangeExtended(committed: Values, canary: Values, n: Node, val: int)
    requires OnlyChanges(committed, canary) && n !in canary && Lookup(committed + canary, n) != Some(val)
    ensures OnlyChanges(committed, canary[n := val])
  {
  }

  /** A list that names each written child once is as long as there are written children. */
  lemma CountOfList(w: World, nodes: set<Node>, n: Node, changed: seq<DomainId>, canary: Values)
    requires Rising(w.forest) && ListsChildren(w, nodes, n, changed, canary)
    ensures |changed| == |CanaryChildren(w.forest, nodes, canary, n)|
  {
    var kids := CanaryChildren(w.forest, nodes, canary, n);
    var one, oneEach := (id: DomainId) => 1, (c: Node) => 1;
    SumOfOnes(changed, one);
    SeqSumIsSetSum(changed, one);
    SumConstant(kids, oneEach, 1);
    if changed == [] {
      assert kids == {};
    } else {
      assert changed[0] in changed;
      var first :| first in ChildrenIn(w.forest, nodes, n) && first.id == changed[0];
      forall id | id in Elements(changed)
        ensures Node(first.domain, id) in kids
      {
        var c :| c in ChildrenIn(w.forest, nodes, n) && c.id == id;
        assert c == Node(first.domain, id);
      }
      SumRename(Elements(changed), kids, one, oneEach, first.domain);
    }
  }

  lemma {:induction false} SumOfOnes(ids: seq<DomainId>, f: DomainId -> int)
    requires forall id :: id in ids ==> f(id) == 1
    ensures SeqSum(ids, f) == |ids|
  {
    if ids != [] {
      SumOfOnes(ids[..|ids| - 1], f);
    }
  }

  lemma CountedSettles(forest: Forest, nodes: set<Node>, committed: Values, canary: Values, n: Node)
    requires Rising(forest) && CanaryChildren(forest, nodes, canary, n) != {}
    ensures var val := CountedValue(forest, nodes, committed, canary, n);
            && Counted(forest, nodes, committed, canary[n := val], n)
            && (Lookup(committed + canary, n) == Some(val) ==> Counted(forest, nodes, committed, canary, n))
  {
    var val := CountedValue(forest, nodes, committed, canary, n);
    hide Narrow;
    assert CanaryChildren(forest, nodes, canary[n := val], n) == CanaryChildren(forest, nodes, canary, n);
  }

  lemma CountStep(w: World, nodes: set<Node>, moves: seq<MovementIndex>, committed: Values, canary: Values,
                  op: Operator, n: Node, changed: seq<DomainId>)
    requires Counting(op, n) && Rising(w.forest) && ListsChildren(w, nodes, n, changed, canary) && n !in canary
    ensures StepValue(op, w, moves, committed + canary, committed, n, changed)
         == CountedValue(w.forest, nodes, committed, canary, n)
  {
    hide Narrow;
    CountOfList(w, nodes, n, changed, canary);
    SumOfOnes(changed, ChildTerm(op, w, Nexts(moves), committed + canary, committed, n));
  }

  /**
   What stays fixed while changes propagate from one configuration to the next.
   */
  datatype Context = Context(op: Operator, w: World, nodes: set<Node>, top: Domain, root: Domain,
                             moves: seq<MovementIndex>,
                             committed: Values, before: Config, after: Config)
  {
    function Next(domain: Domain): Domain {
      Over(top, root, domain)
    }

    ghost predicate Valid() {
      && TreeShape(op, w.forest, nodes, top, root)
      && op.Mode() == AFTER
      && (op.Extremum? ==> MovesMatch(w, moves, after))
      && before.home.Keys <= after.home.Keys
      && (forall n :: n in nodes && !Counting(op, n) ==> NodeOk(op, w, n, committed, before))
    }

    ghost predicate Settled(canary: Values, n: Node) {
      if Counting(op, n) then Counted(w.forest, nodes, committed, canary, n)
      else NodeOk(op, w, n, committed + canary, after)
    }

    /** The value that an evaluation computes when everything below is settled. */
    ghost function RightValue(canary: Values, n: Node): int {
      if Counting(op, n) then CountedValue(w.forest, nodes, committed, canary, n) else NodeValue(op, w, n, after)
    }

    /** The list of a bin names the shards that enter or leave it. */
    ghost predicate BinListing(updates: Updates, n: Node) {
      && ListsChanges(ListAt(updates, n), n.id, before, after)
      && (forall s :: s in ListAt(updates, n) ==> (IsFutureChild(Nexts(moves), s, n.id) <==> after.Holds(n.id, s)))
      && (Touched(w.forest, n, after) <==> Touched(w.forest, n, before) || n in updates)
    }

    ghost predicate Listing(updates: Updates, canary: Values, n: Node) {
      if n.domain <= BIN_DOMAIN then BinListing(updates, n)
      else
        && ListsChildren(w, nodes, n, ListAt(updates, n), canary)
        && (n in updates ==> updates[n] != [])
    }

    ghost predicate UpdatesOf(updates: Updates, domain: Domain) {
      forall n :: n in updates ==> n in nodes && n.domain == domain
    }

    /** Midway through the round of `domain`: `todo` is still to be evaluated, `next` already notified. */
    ghost predicate Round(canary: Values, domain: Domain, updates: Updates, todo: set<Node>, next: Updates) {
      && domain >= BIN_DOMAIN && (domain <= top || domain >= root)
      && UpdatesOf(updates, domain) && UpdatesOf(next, Next(domain))
      && todo <= updates.Keys && OnlyChanges(committed, canary)
      && (forall n :: n in canary ==> n in nodes && (n.domain < domain || (n in updates && n !in todo)))
      && (forall n :: n in nodes && n.domain < domain ==> Settled(canary, n))
      && (forall n :: n in updates && n !in todo ==> Settled(canary, n))
      && (forall n :: n in nodes && n.domain == domain ==> Listing(updates, canary, n))
      && (forall n :: n in nodes && n.domain == Next(domain) ==> Listing(next, canary, n))
    }

    ghost predicate RoundStart(canary: Values, domain: Domain, updates: Updates) {
      Round(canary, domain, updates, updates.Keys, map[])
    }

    /** Everything below the node is settled, and it has not been evaluated yet. */
    ghost predicate ReadyFor(canary: Values, updates: Updates, n: Node) {
      && n in nodes && n.domain >= BIN_DOMAIN && n !in canary
      && Listing(updates, canary, n)
      && (n.domain > BIN_DOMAIN ==> forall c :: c in ChildrenIn(w.forest, nodes, n) ==> Settled(canary, c))
    }

    lemma RoundIsReady(canary: Values, domain: Domain, updates: Updates, todo: set<Node>, next: Updates, n: Node)
      requires Valid() && Round(canary, domain, updates, todo, next)
      requires n in nodes && n.domain == domain && (n in todo || n !in updates)
      ensures ReadyFor(canary, updates, n)
    {
      hide Listing, Settled, HasChildren, NodeOk;
      assert forall c :: c in ChildrenIn(w.forest, nodes, n) ==> c.domain < n.domain;
    }

    /** The notified node of this round gets its from-scratch value. */
    lemma EvaluatedRight(canary: Values, updates: Updates, n: Node)
      requires Valid() && ReadyFor(canary, updates, n) && n in updates
      ensures StepValue(op, w, moves, committed + canary, committed, n, updates[n]) == RightValue(canary, n)
      ensures !Counting(op, n) ==> Touched(w.forest, n, after)
    {
      hide StepValue, NodeValue, Touched, HasChildren, ListsChildren, ListsChanges, CountedValue, Counted;
      if Counting(op, n) {
        CountStep(w, nodes, moves, committed, canary, op, n, updates[n]);
      } else if n.domain == BIN_DOMAIN {
        if op.Extremum? {
          ExtremumBinRight(n, committed + canary, updates[n]);
        } else {
          BinStep(op, w, moves, committed + canary, committed, n.id, updates[n], before, after);
        }
      } else {
        ListedChildTouched(canary, updates, n);
        if op.Extremum? {
          ExtremumStep(op, w, moves, nodes, committed + canary, committed, n, updates[n], after);
        } else {
          NodeStep(op, w, moves, nodes, committed, canary, n, updates[n], before, after);
        }
      }
    }

    lemma ListedChildTouched(canary: Values, updates: Updates, n: Node)
      requires Valid() && ReadyFor(canary, updates, n) && n in updates && n.domain > BIN_DOMAIN && !op.ShardCount?
      ensures Touched(w.forest, n, after)
    {
      hide NodeValue, Touched;
      assert updates[n][0] in updates[n];
      var c :| c in ChildrenIn(w.forest, nodes, n) && c.id == updates[n][0];
      assert c in canary && Settled(canary, c);
      TouchedThroughChild(w.forest, nodes, n, after);
    }

    lemma ExtremumBinRight(n: Node, view: Values, changed: seq<DomainId>)
      requires Valid() && op.Extremum? && n.domain == BIN_DOMAIN
      ensures StepValue(op, w, moves, view, committed, n, changed) == NodeValue(op, w, n, after)
    {
      assert forall s :: s in ConsideredMembers(w, moves, n.id) <==> after.Holds(n.id, s);
      hide Narrow, Load, ConsideredMembers;
      FilteredSumIsLoad(op, w, moves, n.id, after);
    }

    lemma QuietBin(canary: Values, updates: Updates, n: Node)
      requires NodeOk(op, w, n, committed, before) && n !in canary && n.domain == BIN_DOMAIN
      requires BinListing(updates, n) && n !in updates && before.home.Keys <= after.home.Keys
      ensures Settled(canary, n)
    {
      hide Narrow, Touched, Load, ListsChanges;
      BinLoadChange(op, w, n.id, [], before, after);
    }

    /** A node that nobody notified is settled already. */
    lemma UnnotifiedSettled(canary: Values, updates: Updates, n: Node)
      requires Valid() && ReadyFor(canary, updates, n) && n !in updates
      ensures Settled(canary, n)
    {
      hide NodeValue, Touched, HasChildren, CountedValue;
      if Counting(op, n) {
        assert CanaryChildren(w.forest, nodes, canary, n) == {};
      } else if n.domain == BIN_DOMAIN {
        QuietBin(canary, updates, n);
      } else if op.Extremum? {
        QuietExtremum(op, w, nodes, committed, canary, n, before, after);
      } else {
        QuietSum(op, w, nodes, committed, canary, n, before, after);
      }
    }

    // ----- The steps of a round -----

    function Notified(next: Updates, n: Node): Updates {
      if n in w.forest && w.forest[n] in nodes then Notify(next, w.forest[n], n.id) else next
    }

    lemma SettledFrame(canary: Values, n: Node, val: int, m: Node)
      requires Rising(w.forest) && m != n && m.domain <= n.domain
      ensures Settled(canary[n := val], m) <==> Settled(canary, m)
    {
      assert CanaryChildren(w.forest, nodes, canary[n := val], m) == CanaryChildren(w.forest, nodes, canary, m);
      assert Lookup(committed + canary[n := val], m) == Lookup(committed + canary, m);
    }

    lemma ListingFrame(updates: Updates, canary: Values, n: Node, val: int, m: Node)
      requires Rising(w.forest)
      requires m.domain <= n.domain && Listing(updates, canary, m)
      ensures Listing(updates, canary[n := val], m)
    {
    }

    /** The parent learns about the new canary entry; nobody else's list is affected. */
    lemma NotifyListing(next: Updates, canary: Values, n: Node, val: int, q: Node)
      requires Rising(w.forest) && n in nodes && n !in canary
      requires q in nodes && q.domain > BIN_DOMAIN && Listing(next, canary, q)
      ensures Listing(Notified(next, n), canary[n := val], q)
    {
      var kids := ChildrenIn(w.forest, nodes, q);
      var list := ListAt(next, q);
      if n in kids {
        assert n.id !in list;
      } else {
        assert ListAt(Notified(next, n), q) == list;
      }
      forall c | c in kids && c != n
        ensures n in kids ==> c.id != n.id
      {
        if n in kids {
          assert c.domain == n.domain;
        }
      }
    }

    lemma RightValueSettles(canary: Values, updates: Updates, n: Node)
      requires Rising(w.forest) && ReadyFor(canary, updates, n) && n in updates
      requires !Counting(op, n) ==> Touched(w.forest, n, after)
      ensures Settled(canary[n := RightValue(canary, n)], n)
      ensures Lookup(committed + canary, n) == Some(RightValue(canary, n)) ==> Settled(canary, n)
    {
      hide Touched, NodeValue, HasChildren, Counted, CountedValue, Rising;
      if Counting(op, n) {
        assert updates[n][0] in updates[n];
        var c :| c in ChildrenIn(w.forest, nodes, n) && c.id == updates[n][0];
        assert c in CanaryChildren(w.forest, nodes, canary, n);
        CountedSettles(w.forest, nodes, committed, canary, n);
      }
    }

    /** Writing the evaluated value, if it is new, and notifying the parent keeps the round invariant. */
    lemma RoundWrite(canary: Values, domain: Domain, updates: Updates, todo: set<Node>, next: Updates, n: Node)
      requires Valid() && Round(canary, domain, updates, todo, next) && n in todo
      requires Lookup(committed + canary, n) != Some(RightValue(canary, n))
      ensures Round(canary[n := RightValue(canary, n)], domain, updates, todo - {n}, Notified(next, n))
    {
      hide Listing, Settled, HasChildren, NodeOk, NodeValue, Touched, RightValue, OnlyChanges;
      var val := RightValue(canary, n);
      RoundIsReady(canary, domain, updates, todo, next, n);
      EvaluatedRight(canary, updates, n);
      RightValueSettles(canary, updates, n);
      ChangeExtended(committed, canary, n, val);
      hide ReadyFor;
      forall m | m != n && m.domain <= n.domain
        ensures Settled(canary[n := val], m) <==> Settled(canary, m)
      {
        SettledFrame(canary, n, val, m);
      }
      forall m | m in nodes && m.domain == domain
        ensures Listing(updates, canary[n := val], m)
      {
        ListingFrame(updates, canary, n, val, m);
      }
      forall q | q in nodes && q.domain == Next(domain)
        ensures Listing(Notified(next, n), canary[n := val], q)
      {
        NotifyListing(next, canary, n, val, q);
      }
    }

    /** When the recorded value is already right, nothing is written and nobody is notified. */
    lemma RoundKeep(canary: Values, domain: Domain, updates: Updates, todo: set<Node>, next: Updates, n: Node)
      requires Valid() && Round(canary, domain, updates, todo, next) && n in todo
      requires Lookup(committed + canary, n) == Some(RightValue(canary, n))
      ensures Round(canary, domain, updates, todo - {n}, next)
    {
      hide Listing, Settled, HasChildren, NodeOk, NodeValue, Touched, RightValue, OnlyChanges;
      RoundIsReady(canary, domain, updates, todo, next, n);
      EvaluatedRight(canary, updates, n);
      RightValueSettles(canary, updates, n);
    }

    lemma EmptyListing(canary: Values, q: Node)
      requires q.domain > BIN_DOMAIN
      requires forall c :: c in ChildrenIn(w.forest, nodes, q) ==> c !in canary
      ensures Listing(map[], canary, q)
    {
    }

    /** After a round the next domain can start. */
    lemma RoundEnd(canary: Values, domain: Domain, updates: Updates, next: Updates)
      requires Valid() && Round(canary, domain, updates, {}, next)
      ensures RoundStart(canary, Next(domain), next)
    {
      hide Listing, Settled, HasChildren, NodeOk, ReadyFor;
      forall n | n in nodes && n.domain == domain
        ensures Settled(canary, n)
      {
        if n !in updates {
          RoundIsReady(canary, domain, updates, {}, next, n);
          UnnotifiedSettled(canary, updates, n);
        }
      }
      forall q | q in nodes && q.domain == Next(Next(domain))
        ensures Listing(map[], canary, q)
      {
        NothingBelow(canary, domain, q);
      }
    }

    /** Two domains higher nobody has been notified yet. */
    lemma NothingBelow(canary: Values, domain: Domain, q: Node)
      requires Valid() && BIN_DOMAIN <= domain && (domain <= top || domain >= root)
      requires forall n :: n in canary ==> n.domain <= domain
      requires q in nodes && q.domain == Next(Next(domain))
      ensures Listing(map[], canary, q)
    {
      hide Listing, HasChildren, NodeOk, Rising;
      forall c | c in ChildrenIn(w.forest, nodes, q)
        ensures c !in canary
      {
        assert Next(c.domain) == q.domain;
      }
      EmptyListing(canary, q);
    }

    /** With nothing left to notify, every node of the tree is settled. */
    lemma AllSettled(canary: Values, domain: Domain)
      requires Valid() && RoundStart(canary, domain, map[])
      ensures forall n :: n in nodes ==> Settled(canary, n)
      decreases root + 1 - domain
    {
      hide Listing, Settled, HasChildren, NodeOk;
      if domain <= root {
        var none: Updates := map[];
        assert none.Keys == {};
        RoundEnd(canary, domain, none, none);
        AllSettled(canary, Next(domain));
      }
    }

    // ----- Independence of the order -----

    lemma {:induction false} SameAtNode(canary: Values, canary': Values, n: Node)
      requires Valid() && OnlyChanges(committed, canary) && OnlyChanges(committed, canary') && n in nodes
      requires forall m :: m in nodes ==> Settled(canary, m) && Settled(canary', m)
      ensures Lookup(canary, n) == Lookup(canary', n)
      decreases n.domain
    {
      hide NodeValue, Touched, HasChildren, MovesMatch, Narrow, Settled, OnlyChanges, Counting;
      if Counting(op, n) {
        ChildrenLower(n);
        forall c | c in ChildrenIn(w.forest, nodes, n)
          ensures c in canary <==> c in canary'
        {
          SameAtNode(canary, canary', c);
        }
        assert CanaryChildren(w.forest, nodes, canary, n) == CanaryChildren(w.forest, nodes, canary', n);
      }
      SameSettled(canary, canary', n);
    }

    lemma ChildrenLower(n: Node)
      requires Valid() && n in nodes
      ensures forall c :: c in ChildrenIn(w.forest, nodes, n) ==> c in nodes && c.domain < n.domain
    {
    }

    lemma SameSettled(canary: Values, canary': Values, n: Node)
      requires OnlyChanges(committed, canary) && OnlyChanges(committed, canary')
      requires Settled(canary, n) && Settled(canary', n)
      requires Counting(op, n) ==>
                 CanaryChildren(w.forest, nodes, canary, n) == CanaryChildren(w.forest, nodes, canary', n)
      ensures Lookup(canary, n) == Lookup(canary', n)
    {
      hide NodeValue, Touched, Narrow, ChildrenIn, CanaryChildren;
    }

    /**
     Two evaluations of the same placement over the same committed layer, in
     whatever order they visit the nodes, leave the same canary layer.
     */
    lemma CanaryDetermined(canary: Values, canary': Values)
      requires Valid() && OnlyChanges(committed, canary) && OnlyChanges(committed, canary')
      requires canary.Keys <= nodes && canary'.Keys <= nodes
      requires forall n :: n in nodes ==> Settled(canary, n) && Settled(canary', n)
      ensures canary == canary'
    {
      hide Context.Valid, Settled, OnlyChanges;
      forall n | n in nodes
        ensures Lookup(canary, n) == Lookup(canary', n)
      {
        SameAtNode(canary, canary', n);
      }
      assert forall n :: n in canary <==> n in canary';
    }
  }
}
