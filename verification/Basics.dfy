/** Identifiers and machine integers shared by the whole model. */
module Basics {

  datatype Option<+T> = None | Some(value: T) {
    function GetOr(fallback: T): T {
      match this
      case Some(v) => v
      case None => fallback
    }
  }

  type Domain = nat
  type DomainId = nat

  /** A node of the domain tree: shards live in domain 0, bins in domain 1. */
  datatype Node = Node(domain: Domain, id: DomainId)

  /** Bins of shards. */
  type ShardBins = map<DomainId, DomainId>

  /** Values recorded for nodes. */
  type Values = map<Node, int>

  const SHARD_DOMAIN: Domain := 0
  const BIN_DOMAIN: Domain := 1

  function Lookup<K, V>(m: map<K, V>, k: K): Option<V> {
    if k in m then Some(m[k]) else None
  }

  /** The idiom get(k).value_or(0) of the placer. */
  function ValueOrZero<K>(m: map<K, int>, k: K): int {
    if k in m then m[k] else 0
  }

  const TWO_31 := 0x8000_0000
  const TWO_32 := 0x1_0000_0000

  /** Conversion of an integer to int32_t: wrap-around modulo 2^32. */
  function Narrow(x: int): (r: int)
    ensures -TWO_31 <= r < TWO_31
    ensures Congruent(r, x)
  {
    (x + TWO_31) % TWO_32 - TWO_31
  }

  predicate Congruent(x: int, y: int) {
    (x - y) % TWO_32 == 0
  }

  lemma NarrowExact(x: int)
    requires -TWO_31 <= x < TWO_31
    ensures Narrow(x) == x
  {
  }

  /** Two integers narrow to the same int32_t exactly when they are congruent. */
  lemma NarrowCongruent(x: int, y: int)
    ensures Narrow(x) == Narrow(y) <==> Congruent(x, y)
  {
  }

  /** 2^31 wraps to -2^31, and 2^32 - 1 to -1. */
  lemma Int32Wraps()
    ensures Narrow(2147483647) == 2147483647 && Narrow(2147483648) == -2147483648 && Narrow(4294967295) == -1
  {
  }

  lemma CongruentSum(a: int, b: int, c: int, d: int)
    requires Congruent(a, b) && Congruent(c, d)
    ensures Congruent(a + c, b + d)
    ensures Congruent(a - c, b - d)
  {
  }

  lemma NarrowSum(a: int, b: int, c: int, d: int)
    requires Congruent(a, b) && Congruent(c, d)
    ensures Narrow(a + c) == Narrow(b + d)
    ensures Congruent(Narrow(a - c), b - d)
  {
    CongruentSum(a, b, c, d);
    NarrowCongruent(a + c, b + d);
    CongruentSum(Narrow(a - c), a - c, a - c, b - d);
    hide Narrow;
  }

  lemma Scale(k: nat, a: int, b: int)
    requires a <= b
    ensures k * a <= k * b
  {
  }
}
