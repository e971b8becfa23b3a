/** The double index of planned moves: bin to incoming shards and shard to next bin. */
module Movements {
  import opened Basics

  datatype MovementIndex = MovementIndex(incoming: map<DomainId, set<DomainId>>, next: ShardBins) {
    function Incoming(bin: DomainId): set<DomainId> {
      if bin in incoming then incoming[bin] else {}
    }

    /** The incoming sets are the exact inverse of the shard-to-bin map. */
    ghost predicate Inverse() {
      forall b, s :: s in Incoming(b) <==> s in next && next[s] == b
    }

    function Added(shard: DomainId, bin: DomainId): MovementIndex {
      MovementIndex(incoming[bin := Incoming(bin) + {shard}], next[shard := bin])
    }
  }

  const NO_MOVES := MovementIndex(map[], map[])

  function Nexts(moves: seq<MovementIndex>): (r: seq<ShardBins>) {
    seq(|moves|, i requires 0 <= i < |moves| => moves[i].next)
  }

  /** Incoming shards of a bin over several movement maps, counting repetitions. */
  ghost function IncomingTotal(moves: seq<MovementIndex>, bin: DomainId): multiset<DomainId> {
    if moves == [] then multiset{}
    else IncomingTotal(moves[..|moves| - 1], bin) + multiset(moves[|moves| - 1].Incoming(bin))
  }

  /**
   Adding a movement never removes the shard from the bin it was headed to
   before, so the two indices stay inverse exactly when the shard had no other
   target.
   */
  lemma AddKeepsInverseIff(moves: MovementIndex, shard: DomainId, bin: DomainId)
    requires moves.Inverse()
    ensures moves.Added(shard, bin).Inverse() <==> (shard in moves.next ==> moves.next[shard] == bin)
  {
    var added := moves.Added(shard, bin);
    if shard in moves.next && moves.next[shard] != bin {
      assert shard in moves.Incoming(moves.next[shard]);
      assert shard in added.Incoming(moves.next[shard]);
      assert shard in added.next && added.next[shard] != moves.next[shard];
    } else {
      forall b, s
        ensures s in added.Incoming(b) <==> s in added.next && added.next[s] == b
      {
        assert s in moves.Incoming(b) <==> s in moves.next && moves.next[s] == b;
      }
    }
  }

  /** The moves were added one after the other. */
  ghost predicate Merged(was: MovementIndex, moves: ShardBins, now: MovementIndex) {
    && now.next == was.next + moves
    && forall b, s :: s in now.Incoming(b) <==> s in was.Incoming(b) || (s in moves && moves[s] == b)
  }

  class MovementMap {
    var binToIncomingShardMap: map<DomainId, set<DomainId>>
    var shardToNextBinMap: ShardBins

    constructor ()
      ensures Index() == NO_MOVES
    {
      binToIncomingShardMap, shardToNextBinMap := map[], map[];
    }

    function Index(): MovementIndex
      reads this
    {
      MovementIndex(binToIncomingShardMap, shardToNextBinMap)
    }

    function GetNextBin(shard: DomainId): Option<DomainId>
      reads this
    {
      Lookup(shardToNextBinMap, shard)
    }

    method AddMovement(shard: DomainId, bin: DomainId)
      modifies this
      ensures Index() == old(Index()).Added(shard, bin)
    {
      var incoming := if bin in binToIncomingShardMap then binToIncomingShardMap[bin] else {};
      binToIncomingShardMap := binToIncomingShardMap[bin := incoming + {shard}];
      shardToNextBinMap := shardToNextBinMap[shard := bin];
    }

    method RemoveMovement(shard: DomainId)
      modifies this
      ensures shardToNextBinMap == old(shardToNextBinMap) - {shard}
      ensures old(Index().Inverse()) ==> Index().Inverse()
    {
      var nextBin := GetNextBin(shard);
      if nextBin.Some? {
        var bin := nextBin.value;
        var incoming := if bin in binToIncomingShardMap then binToIncomingShardMap[bin] else {};
        binToIncomingShardMap := binToIncomingShardMap[bin := incoming - {shard}];
        shardToNextBinMap := shardToNextBinMap - {shard};
        forall b, s | old(Index().Inverse())
          ensures s in Index().Incoming(b) <==> s in Index().next && Index().next[s] == b
        {
          assert s in old(Index()).Incoming(b) <==> s in old(Index()).next && old(Index()).next[s] == b;
        }
      }
    }

    method ClearMovements()
      modifies this
      ensures Index() == NO_MOVES
    {
      binToIncomingShardMap, shardToNextBinMap := map[], map[];
    }

    /** Merges another map, move by move, in any order. */
    method AddMovements(other: MovementMap)
      requires other != this
      modifies this
      ensures Merged(old(Index()), other.shardToNextBinMap, Index())
    {
      var moves := other.shardToNextBinMap;
      var todo := moves.Keys;
      while todo != {}
        invariant todo <= moves.Keys
        invariant shardToNextBinMap == old(shardToNextBinMap) + (moves - todo)
        invariant forall b, s :: s in Index().Incoming(b)
                    <==> s in old(Index()).Incoming(b) || (s in moves && s !in todo && moves[s] == b)
      {
        var shard :| shard in todo;
        ghost var was := Index();
        AddMovement(shard, moves[shard]);
        todo := todo - {shard};
        assert moves - todo == (moves - (todo + {shard}))[shard := moves[shard]];
        assert forall b, s :: s in Index().Incoming(b) <==> s in was.Incoming(b) || (s == shard && b == moves[shard]);
      }
      assert moves - {} == moves;
    }
  }

  /** Merging moves of shards that have not moved yet keeps the two indices inverse. */
  lemma MergeKeepsInverse(was: MovementIndex, added: MovementIndex, now: MovementIndex)
    requires was.Inverse() && added.Inverse() && was.next.Keys !! added.next.Keys
    requires Merged(was, added.next, now)
    ensures now.Inverse()
  {
    forall b, s
      ensures s in now.Incoming(b) <==> s in now.next && now.next[s] == b
    {
      assert s in was.Incoming(b) <==> s in was.next && was.next[s] == b;
    }
  }
}
