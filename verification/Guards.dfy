/**
 What the incremental evaluation relies on but does not check: the solver only
 tries shards that have not moved, in bins other than their home, and the
 constraints use consistency AFTER.  Each condition is exact.
 */
module Guards {
  import opened Basics
  import opened Sums
  import opened Placement
  import opened Movements
  import opened MappingTree
  import opened Evaluation
  import opened Propagation
  import opened Trials

  /** The movement maps that a trial passes to the tree. */
  ghost function TrialNexts(committed: ShardBins, shard: DomainId, nextBin: DomainId): seq<ShardBins> {
    [map[], committed, map[shard := nextBin]]
  }

  /** The bins that the tree reports as parents of the shard, repetitions included. */
  ghost function TrialParents(w: World, committed: ShardBins, shard: DomainId, nextBin: DomainId): seq<Node>
    requires shard in w.home
  {
    [Node(BIN_DOMAIN, w.home[shard])]
    + (if shard in committed then [Node(BIN_DOMAIN, committed[shard])] else [])
    + [Node(BIN_DOMAIN, nextBin)]
  }

  /** What the evaluation adds to a bin: one signed term for each time the bin was notified. */
  ghost function CodeChange(op: Operator, w: World, committed: ShardBins, shard: DomainId, nextBin: DomainId,
                            bin: DomainId): int
    requires shard in w.home
  {
    SeqSum(ListAt(NotifyAll(map[], TrialParents(w, committed, shard, nextBin), shard), Node(BIN_DOMAIN, bin)),
           BinTerm(op, w, TrialNexts(committed, shard, nextBin), bin))
  }

  /** What the move really changes. */
  ghost function TrueChange(op: Operator, w: World, committed: ShardBins, shard: DomainId, nextBin: DomainId,
                            bin: DomainId): int
  {
    var was, now := Config(w.home, committed), Config(w.home, committed[shard := nextBin]);
    (if now.Holds(bin, shard) then ShardWeight(op, w, shard) else 0)
        - (if was.Holds(bin, shard) then ShardWeight(op, w, shard) else 0)
  }

  /** These are the parents that getParents returns in a tree that holds all the bins involved. */
  lemma TrialParentsOfTree(t: TreeIndex, w: World, committed: ShardBins, shard: DomainId, nextBin: DomainId)
    requires shard in w.home && Node(BIN_DOMAIN, nextBin) in t.parentToChild
    requires shard in committed ==> Node(BIN_DOMAIN, committed[shard]) in t.parentToChild
    ensures [Node(BIN_DOMAIN, w.home[shard])] + MovedParents(t, shard, TrialNexts(committed, shard, nextBin))
         == TrialParents(w, committed, shard, nextBin)
  {
    var still: seq<ShardBins> := [map[]];
    var nexts := TrialNexts(committed, shard, nextBin);
    assert nexts[..2] == still + [committed] && (still + [committed])[..1] == still && still[..0] == [];
    assert MovedParents(t, shard, still) == [];
  }

  function Occurrences(bins: seq<DomainId>, bin: DomainId): nat {
    if bins == [] then 0 else Occurrences(bins[..|bins| - 1], bin) + if bins[|bins| - 1] == bin then 1 else 0
  }

  lemma {:induction false} RepeatedTerm(updates: Updates, bins: seq<DomainId>, shard: DomainId, bin: DomainId,
                                        f: DomainId -> int)
    ensures SeqSum(ListAt(NotifyAll(updates, NodesOf(BIN_DOMAIN, bins), shard), Node(BIN_DOMAIN, bin)), f)
         == SeqSum(ListAt(updates, Node(BIN_DOMAIN, bin)), f) + Occurrences(bins, bin) * f(shard)
  {
    if bins != [] {
      var front, last := bins[..|bins| - 1], bins[|bins| - 1];
      RepeatedTerm(updates, front, shard, bin, f);
      assert NodesOf(BIN_DOMAIN, bins)[..|bins| - 1] == NodesOf(BIN_DOMAIN, front);
      var was := NotifyAll(updates, NodesOf(BIN_DOMAIN, front), shard);
      assert NotifyAll(updates, NodesOf(BIN_DOMAIN, bins), shard) == Notify(was, Node(BIN_DOMAIN, last), shard);
      if last == bin {
        var list := ListAt(was, Node(BIN_DOMAIN, bin));
        assert (list + [shard])[..|list|] == list;
      }
      Distribute(Occurrences(front, bin), if last == bin then 1 else 0, f(shard));
    }
  }

  lemma Distribute(a: int, b: int, x: int)
    ensures (a + b) * x == a * x + b * x
  {
  }

  function TimesNotified(w: World, committed: ShardBins, shard: DomainId, nextBin: DomainId, bin: DomainId): nat
    requires shard in w.home
  {
    (if w.home[shard] == bin then 1 else 0) + (if shard in committed && committed[shard] == bin then 1 else 0)
    + if nextBin == bin then 1 else 0
  }

  predicate StaysIn(committed: ShardBins, shard: DomainId, nextBin: DomainId, bin: DomainId) {
    (shard in committed ==> committed[shard] == bin) && nextBin == bin
  }

  lemma StaysInBin(committed: ShardBins, shard: DomainId, nextBin: DomainId, bin: DomainId)
    ensures IsFutureChild(TrialNexts(committed, shard, nextBin), shard, bin)
            <==> StaysIn(committed, shard, nextBin, bin)
  {
    var nexts, single := TrialNexts(committed, shard, nextBin), map[shard := nextBin];
    assert nexts[0] == map[] && nexts[1] == committed && nexts[2] == single;
    assert committed in nexts && single in nexts && single[shard] == nextBin;
    assert forall m :: m in nexts ==> m == map[] || m == committed || m == single;
  }

  lemma OccurrencesOfTrial(w: World, committed: ShardBins, shard: DomainId, nextBin: DomainId, bin: DomainId)
    requires shard in w.home
    ensures Occurrences(TrialBins(w, committed, shard, nextBin), bin)
              == TimesNotified(w, committed, shard, nextBin, bin)
  {
    var first := [w.home[shard]];
    var none: seq<DomainId> := [];
    var bins := TrialBins(w, committed, shard, nextBin);
    assert first[..0] == none && Occurrences(none, bin) == 0;
    assert Occurrences(first, bin) == if w.home[shard] == bin then 1 else 0;
    if shard in committed {
      assert bins[..2] == [w.home[shard], committed[shard]] && bins[..2][..1] == first;
    } else {
      assert bins == first + [nextBin] && bins[..|bins| - 1] == first;
    }
  }

  ghost function TrialBins(w: World, committed: ShardBins, shard: DomainId, nextBin: DomainId): seq<DomainId>
    requires shard in w.home
  {
    [w.home[shard]] + (if shard in committed then [committed[shard]] else []) + [nextBin]
  }

  /** The code's change of a bin, as notifications times a signed weight. */
  lemma CodeChangeValue(op: Operator, w: World, committed: ShardBins, shard: DomainId, nextBin: DomainId, bin: DomainId)
    requires shard in w.home && op.Mode() == AFTER
    ensures CodeChange(op, w, committed, shard, nextBin, bin)
         == TimesNotified(w, committed, shard, nextBin, bin)
          * if StaysIn(committed, shard, nextBin, bin) then ShardWeight(op, w, shard) else -ShardWeight(op, w, shard)
  {
    hide Occurrences, StaysIn, IsFutureChild, TimesNotified;
    var nexts := TrialNexts(committed, shard, nextBin);
    assert TrialParents(w, committed, shard, nextBin) == NodesOf(BIN_DOMAIN, TrialBins(w, committed, shard, nextBin));
    RepeatedTerm(map[], TrialBins(w, committed, shard, nextBin), shard, bin, BinTerm(op, w, nexts, bin));
    OccurrencesOfTrial(w, committed, shard, nextBin, bin);
    StaysInBin(committed, shard, nextBin, bin);
  }

  /**
   A trial updates every bin correctly exactly when the shard has not been
   moved before and the target is not its home, or the shard weighs nothing.
   */
  lemma GuardsExact(op: Operator, w: World, committed: ShardBins, shard: DomainId, nextBin: DomainId)
    requires shard in w.home && op.Mode() == AFTER
    ensures (forall bin :: CodeChange(op, w, committed, shard, nextBin, bin)
              == TrueChange(op, w, committed, shard, nextBin, bin))
            <==> (shard !in committed && nextBin != w.home[shard]) || ShardWeight(op, w, shard) == 0
  {
    hide CodeChange, TrueChange, ShardWeight;
    if (shard !in committed && nextBin != w.home[shard]) || ShardWeight(op, w, shard) == 0 {
      forall bin
        ensures CodeChange(op, w, committed, shard, nextBin, bin) == TrueChange(op, w, committed, shard, nextBin, bin)
      {
        GuardedBinRight(op, w, committed, shard, nextBin, bin);
      }
    } else {
      HomeGoesWrong(op, w, committed, shard, nextBin);
    }
  }

  lemma GuardedBinRight(op: Operator, w: World, committed: ShardBins, shard: DomainId, nextBin: DomainId, bin: DomainId)
    requires shard in w.home && op.Mode() == AFTER
    requires (shard !in committed && nextBin != w.home[shard]) || ShardWeight(op, w, shard) == 0
    ensures CodeChange(op, w, committed, shard, nextBin, bin) == TrueChange(op, w, committed, shard, nextBin, bin)
  {
    hide CodeChange, ShardWeight;
    CodeChangeValue(op, w, committed, shard, nextBin, bin);
  }

  /** Trying a moved shard again, or its own home, spoils the value of the home bin. */
  lemma HomeGoesWrong(op: Operator, w: World, committed: ShardBins, shard: DomainId, nextBin: DomainId)
    requires shard in w.home && (shard in committed || nextBin == w.home[shard])
    requires op.Mode() == AFTER && ShardWeight(op, w, shard) != 0
    ensures CodeChange(op, w, committed, shard, nextBin, w.home[shard])
              != TrueChange(op, w, committed, shard, nextBin, w.home[shard])
  {
    hide CodeChange, ShardWeight;
    CodeChangeValue(op, w, committed, shard, nextBin, w.home[shard]);
  }

  /** The two bins of a trial are updated correctly under AFTER only, unless the shard weighs nothing. */
  lemma ConsistencyExact(mode: MovementConsistency, w: World, committed: ShardBins, shard: DomainId, nextBin: DomainId)
    requires shard in w.home && shard !in committed && nextBin != w.home[shard]
    ensures var op, nexts := MetricSum(mode), TrialNexts(committed, shard, nextBin);
            (BinTerm(op, w, nexts, w.home[shard])(shard) == -ShardWeight(op, w, shard)
             && BinTerm(op, w, nexts, nextBin)(shard) == ShardWeight(op, w, shard))
            <==> mode == AFTER || ShardWeight(op, w, shard) == 0
  {
    var nexts := TrialNexts(committed, shard, nextBin);
    var single := map[shard := nextBin];
    assert nexts[2] == single && single in nexts && shard in single;
    assert forall m :: m in nexts && shard in m ==> m == single;
    assert single[shard] != w.home[shard];
    assert IsFutureChild(nexts, shard, nextBin) && IsMoving(nexts, shard);
  }

  /** Summing a bin incrementally and summing its filtered child list from scratch give the same int32. */
  lemma TwoLoadsAgree(w: World, committedMoves: MovementIndex, canaryMoves: MovementIndex,
                      view: Values, committed: Values,
                      bin: DomainId, changed: seq<DomainId>, greatest: bool, values: Values)
    requires MovesAway(w, committedMoves) && MovesAway(w, canaryMoves)
               && committedMoves.next.Keys !! canaryMoves.next.Keys
    requires NodeOk(MetricSum(AFTER), w, Node(BIN_DOMAIN, bin), values,
               Config(w.home, committedMoves.next + canaryMoves.next))
    ensures ValueOrZero(values, Node(BIN_DOMAIN, bin))
         == StepValue(Extremum(0, greatest), w, [NO_MOVES, committedMoves, canaryMoves], view, committed,
                      Node(BIN_DOMAIN, bin), changed)
  {
    hide Touched, Load, ConsideredMembers, Narrow, NodeOk, BinMembers, MovesAway;
    MembersPartition(w, committedMoves, canaryMoves);
    var moves, cfg := [NO_MOVES, committedMoves, canaryMoves], Config(w.home, committedMoves.next + canaryMoves.next);
    var sum, best, n := MetricSum(AFTER), Extremum(0, greatest), Node(BIN_DOMAIN, bin);
    RecordedOrZero(sum, w, n, values, cfg);
    assert forall s :: s in ConsideredMembers(w, moves, bin) <==> cfg.Holds(bin, s);
    FilteredSumIsLoad(best, w, moves, bin, cfg);
    SameMetricLoad(w, n, greatest, cfg);
  }

  lemma SameMetricLoad(w: World, n: Node, greatest: bool, cfg: Config)
    ensures Load(w.forest, WeightOf(MetricSum(AFTER), w), n, cfg)
              == Load(w.forest, WeightOf(Extremum(0, greatest), w), n, cfg)
  {
    hide AncestorAt;
    SumExt(cfg.home.Keys, ShareOfShard(w.forest, WeightOf(MetricSum(AFTER), w), n, cfg),
           ShareOfShard(w.forest, WeightOf(Extremum(0, greatest), w), n, cfg));
  }

  ghost function ValueOfNode(values: Values): Node -> int {
    (n: Node) => ValueOrZero(values, n)
  }

  /**
   Load conservation: if metric 0 is non-negative and adds up to less than
   2^31, no value is truncated, and the recorded values of any layer that
   covers all bins add up to the same total in every configuration.
   */
  lemma LayerConserved(w: World, layer: set<Node>, domain: Domain, values: Values, cfg: Config)
    requires forall n :: n in layer ==> NodeOk(MetricSum(AFTER), w, n, values, cfg)
    requires Covers(w.forest, layer, domain, cfg)
    requires forall s :: s in cfg.home ==> 0 <= w.Metric(0, s)
    requires SumOver(cfg.home.Keys, WeightOf(MetricSum(AFTER), w)) < TWO_31
    ensures forall n :: n in layer ==> ValueOrZero(values, n) == Load(w.forest, WeightOf(MetricSum(AFTER), w), n, cfg)
    ensures SumOver(layer, ValueOfNode(values)) == SumOver(cfg.home.Keys, WeightOf(MetricSum(AFTER), w))
  {
    var op := MetricSum(AFTER);
    forall n | n in layer
      ensures ValueOrZero(values, n) == Load(w.forest, WeightOf(op, w), n, cfg)
    {
      RecordedOrZero(op, w, n, values, cfg);
      LoadNeverTruncated(w.forest, WeightOf(op, w), n, cfg);
    }
    SumExt(layer, ValueOfNode(values), LoadOfNode(w.forest, WeightOf(op, w), cfg));
    LayerTotal(w.forest, WeightOf(op, w), layer, domain, cfg);
  }
}
