/**
 Transactional overlays: reads see the canary layer first and fall back to the
 committed layer; commit folds the canary layer in, clear throws it away.
 */
module Committable {
  import opened Basics

  /** A map from one key to a value (fault maps and bin weights). */
  class CommittableMap<K(==), V> {
    var committedMap: map<K, V>
    var canaryMap: map<K, V>

    constructor ()
      ensures committedMap == map[] && canaryMap == map[]
    {
      committedMap, canaryMap := map[], map[];
    }

    ghost function View(): map<K, V>
      reads this
    {
      committedMap + canaryMap
    }

    function Get(k: K): (r: Option<V>)
      reads this
      ensures r == Lookup(View(), k)
    {
      var canary := Lookup(canaryMap, k);
      if canary.Some? then canary else Lookup(committedMap, k)
    }

    method Set(isCanary: bool, val: V, k: K)
      modifies this
      ensures isCanary ==> canaryMap == old(canaryMap)[k := val] && committedMap == old(committedMap)
      ensures isCanary ==> View() == old(View())[k := val]
      ensures !isCanary ==> committedMap == old(committedMap)[k := val] && canaryMap == old(canaryMap)
    {
      if isCanary {
        canaryMap := canaryMap[k := val];
      } else {
        committedMap := committedMap[k := val];
      }
    }

    /** No read changes; the canary layer ends up empty. */
    method Commit()
      modifies this
      ensures committedMap == old(View()) && canaryMap == map[] && View() == old(View())
    {
      var todo := canaryMap.Keys;
      while todo != {}
        invariant todo <= canaryMap.Keys
        invariant canaryMap == old(canaryMap)
        invariant committedMap == old(committedMap) + (canaryMap - todo)
      {
        var k :| k in todo;
        committedMap := committedMap[k := canaryMap[k]];
        todo := todo - {k};
        assert canaryMap - todo == (canaryMap - (todo + {k}))[k := canaryMap[k]];
      }
      assert canaryMap - {} == canaryMap;
      Clear();
    }

    method Clear()
      modifies this
      ensures canaryMap == map[] && committedMap == old(committedMap) && View() == committedMap
    {
      canaryMap := map[];
    }
  }

  /** A single optional value (the total weight). */
  class CommittableKey<V> {
    var canaryVal: Option<V>
    var committedVal: Option<V>

    constructor ()
      ensures canaryVal == None && committedVal == None
    {
      canaryVal, committedVal := None, None;
    }

    function Get(): Option<V>
      reads this
    {
      if canaryVal.Some? then canaryVal else committedVal
    }

    method Set(isCanary: bool, val: V)
      modifies this
      ensures isCanary ==> canaryVal == Some(val) && committedVal == old(committedVal)
      ensures !isCanary ==> committedVal == Some(val) && canaryVal == old(canaryVal)
    {
      if isCanary {
        canaryVal := Some(val);
      } else {
        committedVal := Some(val);
      }
    }

    method Commit()
      modifies this
      ensures committedVal == old(Get()) && canaryVal == None && Get() == old(Get())
    {
      if canaryVal.Some? {
        committedVal := canaryVal;
      }
      Clear();
    }

    method Clear()
      modifies this
      ensures canaryVal == None && committedVal == old(committedVal)
    {
      canaryVal := None;
    }
  }

  // ----- The nested overlay: domain, then id -----

  type Nested<!V> = map<Domain, map<DomainId, V>>

  /** The nested map read as one flat map over nodes. */
  ghost function Flat<V>(m: Nested<V>): map<Node, V> {
    map d, i | d in m && i in m[d] :: Node(d, i) := m[d][i]
  }

  function Inner<V>(m: Nested<V>, d: Domain): map<DomainId, V> {
    if d in m then m[d] else map[]
  }

  /** What a nested map holds for a node. */
  function At<V>(m: Nested<V>, n: Node): Option<V> {
    Lookup(Inner(m, n.domain), n.id)
  }

  lemma FlatAt<V>(m: Nested<V>, n: Node)
    ensures Lookup(Flat(m), n) == At(m, n)
  {
  }

  lemma SameLookups<K(!new), V>(a: map<K, V>, b: map<K, V>)
    requires forall k :: Lookup(a, k) == Lookup(b, k)
    ensures a == b
  {
    forall k
      ensures k in a <==> k in b
      ensures k in a ==> a[k] == b[k]
    {
      assert Lookup(a, k) == Lookup(b, k);
    }
  }

  /** operator[] on both levels: creates the inner map when it is missing. */
  function Put<V>(m: Nested<V>, n: Node, val: V): (r: Nested<V>)
    ensures Flat(r) == Flat(m)[n := val]
  {
    PutIsFlatUpdate(m, n, val);
    m[n.domain := Inner(m, n.domain)[n.id := val]]
  }

  lemma PutIsFlatUpdate<V>(m: Nested<V>, n: Node, val: V)
    ensures Flat(m[n.domain := Inner(m, n.domain)[n.id := val]]) == Flat(m)[n := val]
  {
    var m' := m[n.domain := Inner(m, n.domain)[n.id := val]];
    forall k
      ensures Lookup(Flat(m'), k) == Lookup(Flat(m)[n := val], k)
    {
      hide Flat;
      FlatAt(m', k);
      FlatAt(m, k);
    }
    SameLookups(Flat(m'), Flat(m)[n := val]);
  }

  lemma FlatOfEmpty<V>()
    ensures Flat<V>(map[]) == map[]
  {
  }

  lemma FlatOfMerge<V>(m: Nested<V>, d: Domain, inner: map<DomainId, V>)
    ensures Flat(m[d := Inner(m, d) + inner])
         == Flat(m) + Flat(map[d := inner])
  {
    var merged, single := m[d := Inner(m, d) + inner], map[d := inner];
    forall n
      ensures Lookup(Flat(merged), n) == Lookup(Flat(m) + Flat(single), n)
    {
      hide Flat;
      FlatAt(merged, n);
      FlatAt(m, n);
      FlatAt(single, n);
    }
    SameLookups(Flat(merged), Flat(m) + Flat(single));
  }

  lemma MergeAssociative<K, V>(a: map<K, V>, b: map<K, V>, c: map<K, V>)
    ensures (a + b) + c == a + (b + c)
  {
  }

  lemma MergeStep<V>(committed: Nested<V>, merged: Nested<V>, done: Nested<V>, d: Domain, inner: map<DomainId, V>)
    requires Flat(merged) == Flat(committed) + Flat(done) && d !in done
    ensures Flat(merged[d := Inner(merged, d) + inner]) == Flat(committed) + Flat(done[d := inner])
  {
    hide Flat;
    FlatOfMerge(merged, d, inner);
    FlatOfMerge(done, d, inner);
    assert Inner(done, d) + inner == inner;
    MergeAssociative(Flat(committed), Flat(done), Flat(map[d := inner]));
  }

  class MetricsMap {
    var committedMap: Nested<int>
    var canaryMap: Nested<int>

    constructor ()
      ensures committedMap == map[] && canaryMap == map[]
    {
      committedMap, canaryMap := map[], map[];
    }

    ghost function Committed(): Values
      reads this
    {
      Flat(committedMap)
    }

    ghost function Canary(): Values
      reads this
    {
      Flat(canaryMap)
    }

    ghost function View(): Values
      reads this
    {
      Committed() + Canary()
    }

    function Get(n: Node): (r: Option<int>)
      reads this
      ensures r == Lookup(View(), n)
    {
      FlatAt(canaryMap, n);
      var canary := At(canaryMap, n);
      if canary.Some? then canary else GetFromCommittedMap(n)
    }

    function GetFromCommittedMap(n: Node): (r: Option<int>)
      reads this
      ensures r == Lookup(Committed(), n)
    {
      FlatAt(committedMap, n);
      At(committedMap, n)
    }

    method Set(isCanary: bool, val: int, n: Node)
      modifies this
      ensures isCanary ==> Canary() == old(Canary())[n := val] && Committed() == old(Committed())
      ensures !isCanary ==> Committed() == old(Committed())[n := val] && Canary() == old(Canary())
    {
      if isCanary {
        canaryMap := Put(canaryMap, n, val);
      } else {
        committedMap := Put(committedMap, n, val);
      }
    }

    method Commit()
      modifies this
      ensures Committed() == old(View()) && Canary() == map[] && View() == old(View())
    {
      committedMap := CopyNestedChanges(canaryMap, committedMap);
      Clear();
    }

    static method CopyNestedChanges(canary: Nested<int>, committed: Nested<int>) returns (merged: Nested<int>)
      ensures Flat(merged) == Flat(committed) + Flat(canary)
    {
      hide Flat, Inner;
      FlatOfEmpty<int>();
      merged := committed;
      ghost var done: Nested<int> := map[];
      var todo := canary.Keys;
      while todo != {}
        invariant todo <= canary.Keys && done.Keys == canary.Keys - todo
        invariant forall k :: k in done ==> done[k] == canary[k]
        invariant Flat(merged) == Flat(committed) + Flat(done)
      {
        var d :| d in todo;
        MergeStep(committed, merged, done, d, canary[d]);
        var inner := CopyChanges(canary[d], Inner(merged, d));
        merged := merged[d := inner];
        done := done[d := canary[d]];
        todo := todo - {d};
      }
      assert done == canary;
    }

    static method CopyChanges(canary: map<DomainId, int>, committed: map<DomainId, int>)
      returns (merged: map<DomainId, int>)
      ensures merged == committed + canary
    {
      merged := committed;
      var todo := canary.Keys;
      while todo != {}
        invariant todo <= canary.Keys
        invariant merged == committed + (canary - todo)
      {
        var k :| k in todo;
        merged := merged[k := canary[k]];
        todo := todo - {k};
        assert canary - todo == (canary - (todo + {k}))[k := canary[k]];
      }
      assert canary - {} == canary;
    }

    method Clear()
      modifies this
      ensures Canary() == map[] && Committed() == old(Committed()) && View() == Committed()
    {
      hide Flat;
      FlatOfEmpty<int>();
      canaryMap := map[];
    }
  }

  // ----- Whole runs of the nested overlay -----

  datatype OverlayOp = Write(n: Node, val: int) | Discard | Keep

  /** A flat map with one open transaction: the last committed snapshot and the current content. */
  datatype Transaction = Transaction(snapshot: Values, current: Values) {
    function Step(op: OverlayOp): Transaction {
      match op
      case Write(n, val) => this.(current := current[n := val])
      case Discard => this.(current := snapshot)
      case Keep => this.(snapshot := current)
    }

    function Run(ops: seq<OverlayOp>): Transaction {
      if ops == [] then this else Run(ops[..|ops| - 1]).Step(ops[|ops| - 1])
    }
  }

  ghost function StateOf(m: MetricsMap): Transaction
    reads m
  {
    Transaction(m.Committed(), m.View())
  }

  method Perform(m: MetricsMap, op: OverlayOp)
    modifies m
    ensures StateOf(m) == old(StateOf(m)).Step(op)
  {
    hide Flat;
    match op {
      case Write(n, val) =>
        m.Set(true, val, n);
      case Discard =>
        m.Clear();
      case Keep =>
        m.Commit();
    }
  }

  /** Any sequence of canary writes, clears and commits behaves like the flat transaction. */
  method Replay(m: MetricsMap, ops: seq<OverlayOp>)
    modifies m
    ensures StateOf(m) == old(StateOf(m)).Run(ops)
  {
    hide StateOf;
    ghost var start := StateOf(m);
    var i := 0;
    while i < |ops|
      invariant i <= |ops|
      invariant StateOf(m) == start.Run(ops[..i])
    {
      assert ops[..i + 1][..i] == ops[..i];
      Perform(m, ops[i]);
      i := i + 1;
    }
    assert ops[..i] == ops;
  }

  /** Whatever was written or cleared since the last commit, clearing restores the committed snapshot. */
  lemma {:induction false} DiscardRestores(t: Transaction, ops: seq<OverlayOp>)
    requires Keep !in ops
    ensures t.Run(ops).snapshot == t.snapshot
    ensures t.Run(ops + [Discard]) == Transaction(t.snapshot, t.snapshot)
  {
    if ops != [] {
      DiscardRestores(t, ops[..|ops| - 1]);
    }
    assert (ops + [Discard])[..|ops|] == ops;
  }

  /** A canary write is seen by the next read of its node and by no other, and commits nothing. */
  lemma WriteIsRead(t: Transaction, ops: seq<OverlayOp>, n: Node, val: int)
    ensures var was, now := t.Run(ops), t.Run(ops + [Write(n, val)]);
            && Lookup(now.current, n) == Some(val) && now.snapshot == was.snapshot
            && forall m :: m != n ==> Lookup(now.current, m) == Lookup(was.current, m)
  {
    assert (ops + [Write(n, val)])[..|ops|] == ops;
  }

  /** Committing keeps every read for good, and committing again changes nothing at all. */
  lemma KeepIsIdempotent(t: Transaction, ops: seq<OverlayOp>)
    ensures t.Run(ops + [Keep]).snapshot == t.Run(ops).current
    ensures t.Run(ops + [Keep]).current == t.Run(ops).current
    ensures t.Run(ops + [Keep, Keep]) == t.Run(ops + [Keep])
  {
    assert (ops + [Keep])[..|ops|] == ops;
    assert (ops + [Keep, Keep])[..|ops| + 1] == ops + [Keep];
  }
}
