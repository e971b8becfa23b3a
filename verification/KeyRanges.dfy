/** Splitting a key interval into ranges for the shards. */
module KeyRanges {
  import opened Basics

  const TWO_64 := 0x1_0000_0000_0000_0000

  /** Unsigned 64-bit addition. */
  function AddU64(a: nat, b: nat): nat {
    (a + b) % TWO_64
  }

  /** First and last key of a range. */
  type KeyRange = (nat, nat)

  function Max(a: int, b: int): int {
    if a >= b then a else b
  }

  // ----- What the code computes, wrap-around included -----

  /** (from, from + range + 1) */
  function WideRange(from: nat, r: nat): KeyRange {
    (from, AddU64(AddU64(from, r), 1))
  }

  /** The variable `start` after some rounds of the first loop. */
  function FromAfter(start: nat, r: nat, rounds: nat): nat {
    if rounds == 0 then start else AddU64(FromAfter(start, r, rounds - 1), AddU64(r, 2))
  }

  /** The ranges after some rounds of the first loop. */
  function WideAfter(start: nat, r: nat, rounds: nat): (ranges: seq<KeyRange>)
    ensures |ranges| == rounds + 1
  {
    if rounds == 0 then [WideRange(start, r)]
    else WideAfter(start, r, rounds - 1) + [WideRange(FromAfter(start, r, rounds - 1), r)]
  }

  function Back(ranges: seq<KeyRange>): nat
    requires |ranges| > 0
  {
    ranges[|ranges| - 1].1
  }

  /** The range that one round of the second loop appends. */
  function NextRange(ranges: seq<KeyRange>, r: nat): KeyRange
    requires |ranges| > 0
  {
    (AddU64(Back(ranges), 1), AddU64(AddU64(Back(ranges), 1), r))
  }

  /** The ranges after both loops, the second one having run the given number of rounds. */
  function SplitAfter(start: nat, r: nat, rest: nat, rounds: nat): (ranges: seq<KeyRange>)
    ensures |ranges| == rest + 1 + rounds
  {
    if rounds == 0 then WideAfter(start, r, rest)
    else
      var before := SplitAfter(start, r, rest, rounds - 1);
      before + [NextRange(before, r)]
  }

  /** The second loop stops after this many rounds. */
  ghost predicate StopsAfter(start: nat, end: nat, r: nat, rest: nat, rounds: nat) {
    && Back(SplitAfter(start, r, rest, rounds)) >= end
    && forall j: nat :: j < rounds ==> Back(SplitAfter(start, r, rest, j)) < end
  }

  // ----- The intended layout, in unbounded integers -----

  /** First key of distinct range k: the first `wide` ranges hold r + 2 keys, the others r + 1. */
  ghost function Boundary(start: nat, r: nat, wide: nat, k: nat): nat {
    start + k * (r + 1) + if k < wide then k else wide
  }

  /** Entry i of the result is distinct range i, or i - 1 when the first range is listed twice. */
  ghost function IndexOf(twice: bool, i: nat): nat {
    if twice && i > 0 then i - 1 else i
  }

  ghost predicate IsLayout(ranges: seq<KeyRange>, start: nat, r: nat, wide: nat, twice: bool) {
    forall i :: 0 <= i < |ranges| ==> IsEntry(ranges[i], start, r, wide, IndexOf(twice, i))
  }

  ghost predicate IsEntry(range: KeyRange, start: nat, r: nat, wide: nat, k: nat) {
    range.0 == Boundary(start, r, wide, k) && range.1 + 1 == Boundary(start, r, wide, k + 1)
  }

  ghost function DistinctCount(ranges: seq<KeyRange>, twice: bool): int {
    |ranges| - if twice then 1 else 0
  }

  lemma BoundaryStep(start: nat, r: nat, wide: nat, k: nat)
    ensures Boundary(start, r, wide, k + 1) == Boundary(start, r, wide, k) + r + 1 + if k < wide then 1 else 0
    ensures Boundary(start, r, wide, 0) == start
  {
    assert (k + 1) * (r + 1) == k * (r + 1) + r + 1;
  }

  lemma {:induction false} BoundaryMonotone(start: nat, r: nat, wide: nat, j: nat, k: nat)
    requires j < k
    ensures Boundary(start, r, wide, j) < Boundary(start, r, wide, k)
    decreases k
  {
    BoundaryStep(start, r, wide, k - 1);
    if j < k - 1 {
      BoundaryMonotone(start, r, wide, j, k - 1);
    }
  }

  // ----- When the computed ranges are the intended ones -----

  lemma AddModulo(a: nat, b: nat, c: nat)
    requires a == b % TWO_64
    ensures AddU64(a, c) == (b + c) % TWO_64
  {
  }

  lemma {:induction false} FromAfterValue(start: nat, r: nat, wide: nat, rounds: nat)
    requires rounds <= wide && start < TWO_64
    ensures FromAfter(start, r, rounds) == Boundary(start, r, wide, rounds) % TWO_64
  {
    BoundaryStep(start, r, wide, 0);
    if rounds > 0 {
      FromAfterValue(start, r, wide, rounds - 1);
      BoundaryStep(start, r, wide, rounds - 1);
      hide Boundary;
      AddModulo(FromAfter(start, r, rounds - 1), Boundary(start, r, wide, rounds - 1), AddU64(r, 2));
      AddModulo(AddU64(r, 2), r + 2, Boundary(start, r, wide, rounds - 1));
    }
  }

  lemma WideEntry(start: nat, r: nat, wide: nat, k: nat)
    requires k < wide && Boundary(start, r, wide, k + 1) <= TWO_64
    ensures IsEntry(WideRange(Boundary(start, r, wide, k) % TWO_64, r), start, r, wide, k)
  {
    BoundaryStep(start, r, wide, k);
    hide Boundary;
  }

  lemma LayoutExtended(ranges: seq<KeyRange>, start: nat, r: nat, wide: nat, twice: bool, next: KeyRange)
    requires IsLayout(ranges, start, r, wide, twice)
    requires IsEntry(next, start, r, wide, IndexOf(twice, |ranges|))
    ensures IsLayout(ranges + [next], start, r, wide, twice)
  {
    hide IsEntry;
  }

  lemma {:induction false} WideLayout(start: nat, r: nat, rest: nat, rounds: nat)
    requires start < TWO_64 && rounds <= rest
    requires Boundary(start, r, Max(rest, 1), Max(rounds, 1)) <= TWO_64
    ensures IsLayout(WideAfter(start, r, rounds), start, r, Max(rest, 1), rest > 0)
  {
    var wide, k := Max(rest, 1), Max(rounds, 1) - 1;
    WideEntry(start, r, wide, k);
    FromAfterValue(start, r, wide, k);
    BoundaryStep(start, r, wide, 0);
    hide Boundary, WideRange;
    if rounds > 0 {
      if rounds > 1 {
        BoundaryMonotone(start, r, wide, rounds - 1, rounds);
      }
      WideLayout(start, r, rest, rounds - 1);
      LayoutExtended(WideAfter(start, r, rounds - 1), start, r, wide, true, WideRange(FromAfter(start, r, k), r));
    }
  }

  /** The computed ranges are the layout exactly when their last boundary fits 64 bits. */
  lemma {:induction false} SplitIsLayout(start: nat, r: nat, rest: nat, rounds: nat)
    requires start < TWO_64
    ensures IsLayout(SplitAfter(start, r, rest, rounds), start, r, Max(rest, 1), rest > 0)
            <==> Boundary(start, r, Max(rest, 1), Max(rest, 1) + rounds) <= TWO_64
  {
    hide Boundary, IsLayout, WideAfter, NextRange;
    var wide := Max(rest, 1);
    var ranges := SplitAfter(start, r, rest, rounds);
    if IsLayout(ranges, start, r, wide, rest > 0) {
      LastOfLayout(ranges, start, r, wide, rest > 0);
      SplitFits(start, r, rest, rounds);
    }
    if Boundary(start, r, wide, wide + rounds) <= TWO_64 {
      if rounds == 0 {
        WideLayout(start, r, rest, rest);
      } else {
        BoundaryMonotone(start, r, wide, wide + rounds - 1, wide + rounds);
        SplitIsLayout(start, r, rest, rounds - 1);
        var before := SplitAfter(start, r, rest, rounds - 1);
        LastOfLayout(before, start, r, wide, rest > 0);
        NextEntry(before, start, r, wide, wide + rounds - 1);
        LayoutExtended(before, start, r, wide, rest > 0, NextRange(before, r));
      }
    }
  }

  lemma NextEntry(before: seq<KeyRange>, start: nat, r: nat, wide: nat, k: nat)
    requires |before| > 0 && Back(before) + 1 == Boundary(start, r, wide, k)
    requires wide <= k && Boundary(start, r, wide, k + 1) <= TWO_64
    ensures IsEntry(NextRange(before, r), start, r, wide, k)
  {
    BoundaryStep(start, r, wide, k);
    hide Boundary;
  }

  lemma LastOfLayout(ranges: seq<KeyRange>, start: nat, r: nat, wide: nat, twice: bool)
    requires |ranges| > 0 && IsLayout(ranges, start, r, wide, twice) && DistinctCount(ranges, twice) >= 1
    ensures IndexOf(twice, |ranges|) == DistinctCount(ranges, twice)
    ensures Back(ranges) + 1 == Boundary(start, r, wide, DistinctCount(ranges, twice))
  {
    hide Boundary;
  }

  lemma SplitFits(start: nat, r: nat, rest: nat, rounds: nat)
    ensures Back(SplitAfter(start, r, rest, rounds)) < TWO_64
  {
  }

  // ----- Ascending ranges -----

  /** Ranges are not empty, and ascend without overlap except that the first may be listed twice. */
  ghost predicate Ascending(ranges: seq<KeyRange>, twice: bool) {
    && (forall i :: 0 <= i < |ranges| ==> ranges[i].0 <= ranges[i].1)
    && (forall i, j :: 0 <= i < j < |ranges| ==> InOrder(ranges, twice, i, j))
  }

  ghost predicate InOrder(ranges: seq<KeyRange>, twice: bool, i: nat, j: nat)
    requires i < j < |ranges|
  {
    if twice && i == 0 && j == 1 then ranges[i] == ranges[j] else ranges[i].1 < ranges[j].0
  }

  lemma AscendingFront(ranges: seq<KeyRange>, next: KeyRange, twice: bool)
    requires Ascending(ranges + [next], twice)
    ensures Ascending(ranges, twice)
  {
    var longer := ranges + [next];
    assert forall i :: 0 <= i < |ranges| ==> longer[i] == ranges[i];
    forall i, j | 0 <= i < j < |ranges|
      ensures InOrder(ranges, twice, i, j)
    {
      assert InOrder(longer, twice, i, j);
    }
  }

  lemma AscendingBack(ranges: seq<KeyRange>, next: KeyRange, twice: bool)
    requires Ascending(ranges + [next], twice) && |ranges| > if twice then 1 else 0
    ensures Back(ranges) < next.0 <= next.1
  {
    var longer, last := ranges + [next], |ranges|;
    assert InOrder(longer, twice, last - 1, last) && longer[last].0 <= longer[last].1;
  }

  /** A range that follows the previous one in order has not wrapped. */
  lemma NotWrapped(prev: nat, first: nat, len: nat, next: KeyRange)
    requires prev + 1 == first <= TWO_64 && len < TWO_64
    requires next.0 == first % TWO_64 && next.1 == (first + len) % TWO_64
    requires prev < next.0 <= next.1
    ensures first + len < TWO_64
  {
  }

  lemma WideRangeValue(from: nat, first: nat, r: nat)
    requires from == first % TWO_64
    ensures WideRange(from, r).1 == (first + (r + 1)) % TWO_64
  {
    AddModulo(from, first, r);
    AddModulo(AddU64(from, r), first + r, 1);
  }

  lemma NextRangeValue(ranges: seq<KeyRange>, first: nat, r: nat)
    requires |ranges| > 0 && Back(ranges) + 1 == first
    ensures NextRange(ranges, r).0 == first % TWO_64 && NextRange(ranges, r).1 == (first + r) % TWO_64
  {
    AddModulo(AddU64(Back(ranges), 1), first, r);
  }

  /** If all is in order, no sum has wrapped. */
  lemma {:induction false} WideOrdered(start: nat, r: nat, rest: nat, rounds: nat)
    requires start < TWO_64 && r + 1 < TWO_64 && rounds <= rest && Ascending(WideAfter(start, r, rounds), rest > 0)
    ensures Boundary(start, r, Max(rest, 1), Max(rounds, 1)) <= TWO_64
  {
    var wide, ranges := Max(rest, 1), WideAfter(start, r, rounds);
    BoundaryStep(start, r, wide, 0);
    if rounds <= 1 {
      WideRangeValue(start, start, r);
      assert ranges[rounds] == WideRange(start, r) && ranges[rounds].0 <= ranges[rounds].1;
      hide Boundary;
    } else {
      var before := WideAfter(start, r, rounds - 1);
      var first := Boundary(start, r, wide, rounds - 1);
      hide Boundary, WideAfter, FromAfter, WideRange, IsLayout, Ascending;
      LastWide(start, r, rounds);
      AscendingFront(before, WideRange(FromAfter(start, r, rounds - 1), r), true);
      WideOrdered(start, r, rest, rounds - 1);
      WideLayout(start, r, rest, rounds - 1);
      LastOfLayout(before, start, r, wide, true);
      FromAfterValue(start, r, wide, rounds - 1);
      WideRangeValue(FromAfter(start, r, rounds - 1), first, r);
      BoundaryStep(start, r, wide, rounds - 1);
      AscendingBack(before, WideRange(FromAfter(start, r, rounds - 1), r), true);
      NotWrapped(Back(before), first, r + 1, ranges[rounds]);
    }
  }

  lemma LastWide(start: nat, r: nat, rounds: nat)
    requires rounds > 0
    ensures WideAfter(start, r, rounds)
              == WideAfter(start, r, rounds - 1) + [WideRange(FromAfter(start, r, rounds - 1), r)]
    ensures WideRange(FromAfter(start, r, rounds - 1), r).0 == FromAfter(start, r, rounds - 1)
  {
  }

  lemma {:induction false} SplitOrdered(start: nat, r: nat, rest: nat, rounds: nat)
    requires start < TWO_64 && r + 1 < TWO_64 && Ascending(SplitAfter(start, r, rest, rounds), rest > 0)
    ensures Boundary(start, r, Max(rest, 1), Max(rest, 1) + rounds) <= TWO_64
  {
    var wide, ranges := Max(rest, 1), SplitAfter(start, r, rest, rounds);
    if rounds == 0 {
      WideOrdered(start, r, rest, rest);
    } else {
      var before := SplitAfter(start, r, rest, rounds - 1);
      var last, first := |before|, Boundary(start, r, wide, wide + rounds - 1);
      assert ranges == before + [NextRange(before, r)];
      hide Boundary, SplitAfter, WideAfter, NextRange, IsLayout, Ascending, Max;
      AscendingFront(before, NextRange(before, r), rest > 0);
      SplitOrdered(start, r, rest, rounds - 1);
      SplitIsLayout(start, r, rest, rounds - 1);
      LastOfLayout(before, start, r, wide, rest > 0);
      NextRangeValue(before, first, r);
      BoundaryStep(start, r, wide, wide + rounds - 1);
      AscendingBack(before, NextRange(before, r), rest > 0);
      NotWrapped(Back(before), first, r, ranges[last]);
    }
  }

  /** A range of 2^64 keys wraps at once, and the second loop then only appends reversed ranges. */
  lemma WholeSpaceReversed(rounds: nat)
    requires rounds > 0
    ensures !Ascending(SplitAfter(0, TWO_64 - 1, 1, rounds), true)
  {
    SplitPrefix(0, TWO_64 - 1, 1, 1, rounds);
    var first: seq<KeyRange> := WideAfter(0, TWO_64 - 1, 1);
    assert WideAfter(0, TWO_64 - 1, 0) == [(0, 0)];
    assert first == [(0, 0), (0, 0)];
    assert SplitAfter(0, TWO_64 - 1, 1, 0) == first;
    assert SplitAfter(0, TWO_64 - 1, 1, 1)[2] == (1, 0);
  }

  lemma WholeSpaceFails(rounds: nat)
    ensures !(StopsAfter(0, TWO_64 - 1, TWO_64 - 1, 1, rounds) && Ascending(SplitAfter(0, TWO_64 - 1, 1, rounds), true))
  {
    if rounds > 0 {
      WholeSpaceReversed(rounds);
    } else {
      assert WideAfter(0, TWO_64 - 1, 0) == [(0, 0)];
    }
  }

  lemma {:induction false} SplitPrefix(start: nat, r: nat, rest: nat, fewer: nat, rounds: nat)
    requires fewer <= rounds
    ensures SplitAfter(start, r, rest, fewer) <= SplitAfter(start, r, rest, rounds)
    decreases rounds
  {
    if fewer < rounds {
      SplitPrefix(start, r, rest, fewer, rounds - 1);
    }
  }

  // ----- The exact condition -----

  /** Number of distinct ranges: at least the wide ones, and enough to reach the end. */
  function RangeCount(start: nat, end: nat, numShards: nat): nat
    requires numShards > 0 && start <= end && (end - start) / numShards > 0
  {
    var r := (end - start) / numShards;
    var wide := Max(numShards % r, 1);
    Max(wide, (end + 1 - start - wide + r) / (r + 1))
  }

  /** The last range ends below 2^64. */
  predicate NoWrap(start: nat, end: nat, numShards: nat)
    requires numShards > 0 && start <= end && (end - start) / numShards > 0
  {
    var r := (end - start) / numShards;
    start + RangeCount(start, end, numShards) * (r + 1) + Max(numShards % r, 1) - 1 < TWO_64
  }

  lemma CeilDiv(x: int, d: nat, k: int)
    requires d > 0
    ensures (x + d - 1) / d <= k <==> x <= k * d
  {
    var q := (x + d - 1) / d;
    assert q * d <= x + d - 1 < q * d + d;
    if q <= k {
      Scale(d, q, k);
    } else {
      Scale(d, k + 1, q);
      assert (k + 1) * d == k * d + d;
    }
  }

  /** The layout reaches the end with RangeCount ranges and with no fewer. */
  lemma ReachesEnd(start: nat, end: nat, numShards: nat, k: nat)
    requires numShards > 0 && start <= end && (end - start) / numShards > 0
    requires k >= Max(numShards % ((end - start) / numShards), 1)
    ensures var r := (end - start) / numShards;
            Boundary(start, r, Max(numShards % r, 1), k) > end <==> k >= RangeCount(start, end, numShards)
  {
    var r := (end - start) / numShards;
    CeilDiv(end + 1 - start - Max(numShards % r, 1), r + 1, k);
  }

  /**
   Both loops end with an ascending split of the interval if and only if the
   last range does not reach beyond 64 bits, which can be computed beforehand.
   */
  lemma SplitExact(start: nat, end: nat, numShards: nat)
    requires numShards > 0 && start <= end < TWO_64 && (end - start) / numShards > 0
    ensures var r := (end - start) / numShards;
            var rest := numShards % r;
            (exists rounds :: StopsAfter(start, end, r, rest, rounds)
                              && IsSplit(SplitAfter(start, r, rest, rounds), start, end, numShards, rest > 0))
            <==> NoWrap(start, end, numShards)
  {
    var r := (end - start) / numShards;
    var rest := numShards % r;
    hide IsSplit, StopsAfter;
    if NoWrap(start, end, numShards) {
      NoWrapSplits(start, end, numShards);
    }
    forall rounds | StopsAfter(start, end, r, rest, rounds)
                    && IsSplit(SplitAfter(start, r, rest, rounds), start, end, numShards, rest > 0)
      ensures NoWrap(start, end, numShards)
    {
      SplitMeansNoWrap(start, end, numShards, rounds);
    }
  }

  /** A split of the interval: ascending ranges that cover it, at most one distinct range per shard. */
  ghost predicate IsSplit(ranges: seq<KeyRange>, start: nat, end: nat, numShards: nat, twice: bool) {
    && Ascending(ranges, twice)
    && (forall key: nat :: start <= key <= end ==> Covered(ranges, key))
    && DistinctCount(ranges, twice) <= numShards
  }

  ghost predicate Covered(ranges: seq<KeyRange>, key: nat) {
    exists i :: 0 <= i < |ranges| && ranges[i].0 <= key <= ranges[i].1
  }

  lemma SplitMeansNoWrap(start: nat, end: nat, numShards: nat, rounds: nat)
    requires numShards > 0 && start <= end < TWO_64 && (end - start) / numShards > 0
    requires var r := (end - start) / numShards;
             && StopsAfter(start, end, r, numShards % r, rounds)
             && Ascending(SplitAfter(start, r, numShards % r, rounds), numShards % r > 0)
    ensures NoWrap(start, end, numShards)
  {
    var r := (end - start) / numShards;
    var rest := numShards % r;
    var wide := Max(rest, 1);
    hide Boundary, IsLayout, Ascending, SplitAfter, RangeCount, NoWrap, StopsAfter;
    StopsAtEnd(start, end, r, rest, rounds);
    NoWrapBoundary(start, end, numShards);
    if r + 1 == TWO_64 {
      RangeOfAll(start, end, numShards);
      WholeSpaceFails(rounds);
    } else {
      QuotientSmall(start, end, numShards);
      SplitOrdered(start, r, rest, rounds);
      SplitIsLayout(start, r, rest, rounds);
      LastOfLayout(SplitAfter(start, r, rest, rounds), start, r, wide, rest > 0);
      ReachesEnd(start, end, numShards, wide + rounds);
      CountMonotone(start, r, wide, RangeCount(start, end, numShards), wide + rounds);
    }
  }

  lemma StopsAtEnd(start: nat, end: nat, r: nat, rest: nat, rounds: nat)
    requires StopsAfter(start, end, r, rest, rounds)
    ensures Back(SplitAfter(start, r, rest, rounds)) >= end
  {
  }

  lemma NoWrapBoundary(start: nat, end: nat, numShards: nat)
    requires numShards > 0 && start <= end && (end - start) / numShards > 0
    ensures var r := (end - start) / numShards;
            NoWrap(start, end, numShards)
            <==> Boundary(start, r, Max(numShards % r, 1), RangeCount(start, end, numShards)) <= TWO_64
  {
  }

  lemma QuotientSmall(start: nat, end: nat, numShards: nat)
    requires numShards > 0 && start <= end < TWO_64
    ensures (end - start) / numShards <= end - start < TWO_64
  {
  }

  lemma RangeOfAll(start: nat, end: nat, numShards: nat)
    requires numShards > 0 && start <= end < TWO_64 && (end - start) / numShards + 1 == TWO_64
    ensures start == 0 && end == TWO_64 - 1 && numShards == 1
  {
    var r := (end - start) / numShards;
    assert numShards * r <= end - start;
    Scale(r, if numShards >= 2 then 2 else 1, numShards);
  }

  lemma CountMonotone(start: nat, r: nat, wide: nat, j: nat, k: nat)
    requires j <= k
    ensures Boundary(start, r, wide, j) <= Boundary(start, r, wide, k)
  {
    if j < k {
      BoundaryMonotone(start, r, wide, j, k);
    }
  }

  /** Without wrapping, the second loop stops after RangeCount ranges. */
  lemma NoWrapStops(start: nat, end: nat, numShards: nat)
    requires numShards > 0 && start <= end < TWO_64 && (end - start) / numShards > 0 && NoWrap(start, end, numShards)
    ensures var r := (end - start) / numShards;
            var rest := numShards % r;
            var count := RangeCount(start, end, numShards);
            && count >= Max(rest, 1) && StopsAfter(start, end, r, rest, count - Max(rest, 1))
            && (forall j: nat :: j <= count - Max(rest, 1) ==>
                  IsLayout(SplitAfter(start, r, rest, j), start, r, Max(rest, 1), rest > 0))
  {
    var r := (end - start) / numShards;
    var rest := numShards % r;
    var wide, count := Max(rest, 1), RangeCount(start, end, numShards);
    forall j: nat | j <= count - wide
      ensures IsLayout(SplitAfter(start, r, rest, j), start, r, wide, rest > 0)
      ensures Back(SplitAfter(start, r, rest, j)) >= end <==> j == count - wide
    {
      CountMonotone(start, r, wide, wide + j, count);
      SplitIsLayout(start, r, rest, j);
      LastOfLayout(SplitAfter(start, r, rest, j), start, r, wide, rest > 0);
      ReachesEnd(start, end, numShards, wide + j);
    }
  }

  lemma NoWrapSplits(start: nat, end: nat, numShards: nat)
    requires numShards > 0 && start <= end < TWO_64 && (end - start) / numShards > 0 && NoWrap(start, end, numShards)
    ensures var r := (end - start) / numShards;
            var rest := numShards % r;
            exists rounds :: StopsAfter(start, end, r, rest, rounds)
                             && IsSplit(SplitAfter(start, r, rest, rounds), start, end, numShards, rest > 0)
  {
    var r := (end - start) / numShards;
    var rest := numShards % r;
    var wide := Max(rest, 1);
    var rounds := RangeCount(start, end, numShards) - wide;
    var ranges := SplitAfter(start, r, rest, rounds);
    NoWrapStops(start, end, numShards);
    assert IsLayout(ranges, start, r, wide, rest > 0);
    LayoutAscends(ranges, start, r, wide, rest > 0);
    CountBound(start, end, numShards);
    hide IsLayout, Ascending, SplitAfter, Covered;
    forall key: nat | start <= key <= end
      ensures Covered(ranges, key)
    {
      RangesCover(ranges, start, r, wide, rest > 0, key);
    }
  }

  lemma LayoutAscends(ranges: seq<KeyRange>, start: nat, r: nat, wide: nat, twice: bool)
    requires IsLayout(ranges, start, r, wide, twice)
    ensures Ascending(ranges, twice)
  {
    forall i | 0 <= i < |ranges|
      ensures ranges[i].0 <= ranges[i].1
    {
      BoundaryMonotone(start, r, wide, IndexOf(twice, i), IndexOf(twice, i) + 1);
    }
    forall i, j | 0 <= i < j < |ranges|
      ensures InOrder(ranges, twice, i, j)
    {
      RangesDisjoint(ranges, start, r, wide, twice, i, j);
    }
  }

  // ----- Bounds -----

  /** There is at most one distinct range per shard. */
  lemma CountBound(start: nat, end: nat, numShards: nat)
    requires numShards > 0 && start <= end && (end - start) / numShards > 0
    ensures RangeCount(start, end, numShards) <= numShards
  {
    var r := (end - start) / numShards;
    var wide := Max(numShards % r, 1);
    RemainderSmall(numShards, r);
    assert end - start < numShards * r + numShards;
    assert numShards * (r + 1) == numShards * r + numShards;
    CeilDiv(end + 1 - start - wide, r + 1, numShards);
  }

  lemma RemainderSmall(numShards: nat, range: nat)
    requires numShards > 0 && range > 0
    ensures numShards % range <= numShards
  {
  }

  /** The last range exceeds the end by at most max(r, 2 * numShards - 1). */
  lemma OvershootBound(start: nat, end: nat, numShards: nat)
    requires numShards > 0 && start <= end && (end - start) / numShards > 0
    ensures var r := (end - start) / numShards;
            Boundary(start, r, Max(numShards % r, 1), RangeCount(start, end, numShards)) - 1
                <= end + Max(r, 2 * numShards - 1)
  {
    var r := (end - start) / numShards;
    var wide, count := Max(numShards % r, 1), RangeCount(start, end, numShards);
    RemainderSmall(numShards, r);
    if count == wide {
      assert numShards * r <= end - start;
      Scale(r, wide, numShards);
      assert wide * (r + 1) == wide * r + wide;
    } else {
      ReachesEnd(start, end, numShards, count - 1);
      BoundaryStep(start, r, wide, count - 1);
    }
  }

  /** A simpler condition that is enough, but not needed. */
  predicate FitsU64(start: nat, end: nat, numShards: nat)
    requires numShards > 0 && start <= end
  {
    end + Max((end - start) / numShards, 2 * numShards - 1) < TWO_64
  }

  lemma FitsMeansNoWrap(start: nat, end: nat, numShards: nat)
    requires numShards > 0 && start <= end && (end - start) / numShards > 0 && FitsU64(start, end, numShards)
    ensures NoWrap(start, end, numShards)
  {
    OvershootBound(start, end, numShards);
  }

  // ----- The program -----

  method GenerateShardKeyRangeMap(start: nat, end: nat, numShards: nat)
    returns (ranges: seq<KeyRange>, ghost wide: nat, ghost twice: bool)
    requires numShards > 0 && start <= end < TWO_64
    requires (end - start) / numShards > 0 ==> NoWrap(start, end, numShards)
    ensures end - start < numShards ==> ranges == []
    ensures end - start >= numShards ==>
              var r := (end - start) / numShards;
              && wide == Max(numShards % r, 1) && twice == (numShards % r > 0)
              && DistinctCount(ranges, twice) == RangeCount(start, end, numShards) <= numShards
              && IsLayout(ranges, start, r, wide, twice)
              && end <= Back(ranges) <= end + Max(r, 2 * numShards - 1)
  {
    ranges, wide, twice := [], 0, false;
    var range := (end - start) / numShards;
    EmptyRange(end - start, numShards);
    if range <= 0 {
      return;
    }
    ghost var rest := numShards % range;
    wide, twice := Max(rest, 1), rest > 0;
    ranges := WideRanges(start, numShards, range);
    ranges := FillToEnd(ranges, start, end, numShards, range);
    NoWrapStops(start, end, numShards);
    hide Boundary, IsLayout;
    LastOfLayout(ranges, start, range, wide, twice);
    CountBound(start, end, numShards);
    OvershootBound(start, end, numShards);
  }

  lemma EmptyRange(keys: nat, numShards: nat)
    requires numShards > 0
    ensures keys / numShards == 0 <==> keys < numShards
  {
  }

  /** The first range and the first loop, wrap-around included. */
  method WideRanges(start: nat, numShards: nat, range: nat) returns (ranges: seq<KeyRange>)
    requires range > 0
    ensures ranges == WideAfter(start, range, numShards % range)
  {
    ranges := [(start, AddU64(AddU64(start, range), 1))];
    var from := start;
    var i := 0;
    while i < numShards % range
      invariant 0 <= i <= numShards % range
      invariant from == FromAfter(start, range, i) && ranges == WideAfter(start, range, i)
    {
      ranges := ranges + [(from, AddU64(AddU64(from, range), 1))];
      from := AddU64(from, AddU64(range, 2));
      i := i + 1;
    }
  }

  /** The second loop: appends ranges until the end is covered. */
  method FillToEnd(wideRanges: seq<KeyRange>, ghost start: nat, end: nat, ghost numShards: nat, range: nat)
    returns (ranges: seq<KeyRange>)
    requires numShards > 0 && start <= end < TWO_64 && range == (end - start) / numShards > 0
    requires NoWrap(start, end, numShards) && wideRanges == WideAfter(start, range, numShards % range)
    ensures var rest := numShards % range;
            ranges == SplitAfter(start, range, rest, RangeCount(start, end, numShards) - Max(rest, 1))
    ensures |ranges| > 0 && Back(ranges) >= end
  {
    hide IsLayout, RangeCount, NoWrap, SplitAfter, WideAfter, Max;
    NoWrapStops(start, end, numShards);
    ghost var rest := numShards % range;
    ghost var last := RangeCount(start, end, numShards) - Max(rest, 1);
    ranges := wideRanges;
    ghost var rounds := 0;
    SplitStep(start, range, rest, 0);
    while ranges[|ranges| - 1].1 < end
      invariant 0 <= rounds <= last && ranges == SplitAfter(start, range, rest, rounds)
      decreases last - rounds
    {
      SplitStep(start, range, rest, rounds);
      var back := ranges[|ranges| - 1].1;
      ranges := ranges + [(AddU64(back, 1), AddU64(AddU64(back, 1), range))];
      rounds := rounds + 1;
    }
  }

  lemma SplitStep(start: nat, r: nat, rest: nat, rounds: nat)
    ensures SplitAfter(start, r, rest, 0) == WideAfter(start, r, rest)
    ensures var before := SplitAfter(start, r, rest, rounds);
            SplitAfter(start, r, rest, rounds + 1) == before + [NextRange(before, r)]
  {
  }

  // ----- What the layout means -----

  /** Ranges are pairwise disjoint and ascending, except that the first one may be listed twice. */
  lemma RangesDisjoint(ranges: seq<KeyRange>, start: nat, r: nat, wide: nat, twice: bool, i: nat, j: nat)
    requires IsLayout(ranges, start, r, wide, twice) && i < j < |ranges|
    ensures if twice && i == 0 && j == 1 then ranges[i] == ranges[j] else ranges[i].1 < ranges[j].0
  {
    var a, b := IndexOf(twice, i), IndexOf(twice, j);
    if a + 1 < b {
      BoundaryMonotone(start, r, wide, a + 1, b);
    }
  }

  /** Every key from start to the last range's end belongs to a range. */
  lemma {:induction false} RangesCover(ranges: seq<KeyRange>, start: nat, r: nat, wide: nat, twice: bool, key: nat)
    requires IsLayout(ranges, start, r, wide, twice) && |ranges| > 0
    requires start <= key <= Back(ranges)
    ensures Covered(ranges, key)
  {
    var last := |ranges| - 1;
    if ranges[last].0 <= key {
    } else {
      BoundaryStep(start, r, wide, 0);
      assert last > 0;
      var front := ranges[..last];
      assert IsLayout(front, start, r, wide, twice);
      RangesCover(front, start, r, wide, twice, key);
      var i :| 0 <= i < |front| && front[i].0 <= key <= front[i].1;
      assert ranges[i] == front[i];
    }
  }

  // ----- Inputs -----

  /** One range over all 64-bit keys: the sum wraps to 0 and the second loop never reaches the end. */
  lemma {:induction false} WrappedSplitNeverEnds(rounds: nat)
    ensures var end := TWO_64 - 1;
            && !NoWrap(0, end, 1)
            && Back(SplitAfter(0, end, 1, rounds)) == 0 < end
  {
    if rounds > 0 {
      WrappedSplitNeverEnds(rounds - 1);
    } else {
      assert WideAfter(0, TWO_64 - 1, 0) == [(0, 0)];
    }
  }

  /** One key less, and the split is right although FitsU64 does not hold. */
  lemma FitsNotNeeded()
    ensures !FitsU64(0, TWO_64 - 2, 1) && NoWrap(0, TWO_64 - 2, 1)
  {
  }
}
