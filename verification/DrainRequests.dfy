/** Which of the slots a reap or a ceiling drain lists are actually asked to drain. */
module DrainRequests {
  import opened PoolState

  /** Of these slots, drained in turn, the ones that are still ready when their turn comes: those are sent 'X'. */
  function Asked(p: Pools, ids: seq<nat>): seq<nat> {
    if ids == [] then []
    else
      var front, last := ids[..|ids| - 1], ids[|ids| - 1];
      Asked(p, front) + if last in Ids(DrainAll(p, front).ready) then [last] else []
  }

  predicate Distinct(ids: seq<nat>) {
    forall i, j :: 0 <= i < j < |ids| ==> ids[i] != ids[j]
  }

  predicate DistinctReady(p: Pools, ids: seq<nat>) {
    && (forall i :: 0 <= i < |ids| ==> ids[i] in Ids(p.ready))
    && Distinct(ids)
  }

  lemma StillReady(p: Pools, ids: seq<nat>, id: nat)
    requires WellFormed(p) && id in Ids(p.ready) && id !in ids
    ensures id in Ids(DrainAll(p, ids).ready)
  {
    DrainAllPlaces(p, ids, id);
  }

  /** Distinct ready slots are all asked. */
  lemma {:induction false} AllAsked(p: Pools, ids: seq<nat>)
    requires WellFormed(p) && DistinctReady(p, ids)
    ensures Asked(p, ids) == ids
  {
    if ids != [] {
      var front, last := ids[..|ids| - 1], ids[|ids| - 1];
      SnocDistinct(p, ids);
      AllAsked(p, front);
      StillReady(p, front, last);
      assert front + [last] == ids;
    }
  }

  lemma SnocDistinct(p: Pools, ids: seq<nat>)
    requires DistinctReady(p, ids) && ids != []
    ensures DistinctReady(p, ids[..|ids| - 1])
    ensures ids[|ids| - 1] in Ids(p.ready) && ids[|ids| - 1] !in ids[..|ids| - 1]
  {
  }

  lemma {:induction false} CandidatesDistinct(ready: seq<Peer>, now: nat)
    requires DistinctIds(ready)
    ensures forall i :: 0 <= i < |Candidates(ready, now)| ==> Candidates(ready, now)[i] in Ids(ready)
    ensures Distinct(Candidates(ready, now))
  {
    if ready != [] {
      var rest := Candidates(ready[1..], now);
      CandidatesDistinct(ready[1..], now);
      IdsOfRest(ready);
      assert ready[0] in ready;
      if Idle(ready[0], now) {
        assert Candidates(ready, now) == [ready[0].id] + rest;
        assert forall i :: 0 <= i < |rest| ==> rest[i] in Ids(ready[1..]);
      }
    }
  }

  /** Both lists name distinct ready slots. */
  lemma ListsAreReady(p: Pools, now: nat, floor: nat, max: nat)
    requires WellFormed(p)
    ensures DistinctReady(p, ReapList(p, now, floor)) && DistinctReady(p, SighupList(p, max))
  {
    CandidatesDistinct(p.ready, now);
    var c, list := Candidates(p.ready, now), ReapList(p, now, floor);
    var keep := Sub(floor, Sub(|p.ready|, |c|));
    assert forall i :: 0 <= i < |list| ==> list[i] == c[keep + i];
    forall i | 0 <= i < |SighupList(p, max)| ensures SighupList(p, max)[i] in Ids(p.ready) {
      assert p.ready[i] in p.ready;
    }
  }

  /** So a reap and a ceiling drain ask every slot they list, once and in order. */
  lemma EveryListedSlotAsked(p: Pools, now: nat, floor: nat, max: nat)
    requires WellFormed(p)
    ensures Asked(p, ReapList(p, now, floor)) == ReapList(p, now, floor)
    ensures Asked(p, SighupList(p, max)) == SighupList(p, max)
  {
    ListsAreReady(p, now, floor, max);
    AllAsked(p, ReapList(p, now, floor));
    AllAsked(p, SighupList(p, max));
  }
}
