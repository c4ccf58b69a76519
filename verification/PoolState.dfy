/**
  The frontend pool's three containers as values: which slots are ready (in
  insertion order), in flight and draining, and what each pool operation does to
  them. Times are milliseconds.
*/
module PoolState {
  import opened Wrappers

  const IDLE_REAP_AFTER: nat := 60_000
  const DRAIN_ACK_TIMEOUT: nat := 60_000

  datatype Peer = Peer(id: nat, lastReadyAt: nat)

  /** `inFlight` and `draining` map a slot id to its last ready time. */
  datatype Pools = Pools(ready: seq<Peer>, inFlight: map<nat, nat>, draining: map<nat, nat>, counter: nat)

  const EMPTY := Pools([], map[], map[], 0)

  function Total(p: Pools): nat { |p.ready| + |p.inFlight| + |p.draining| }

  function Ids(ready: seq<Peer>): set<nat> { set q | q in ready :: q.id }

  /** Position of a slot in the ready order, or its length when it is absent. */
  function Find(ready: seq<Peer>, id: nat): (k: nat)
    ensures k <= |ready|
    ensures k < |ready| ==> ready[k].id == id
    ensures k == |ready| <==> id !in Ids(ready)
  {
    if ready == [] then 0
    else if ready[0].id == id then assert ready[0] in ready; 0
    else
      assert ready == [ready[0]] + ready[1..];
      1 + Find(ready[1..], id)
  }

  /** `shift_remove`: the others keep their order. */
  function Without(ready: seq<Peer>, id: nat): seq<Peer> {
    var k := Find(ready, id);
    if k == |ready| then ready else ready[..k] + ready[k + 1..]
  }

  /** `insert`: an id already present keeps its position. */
  function With(ready: seq<Peer>, q: Peer): seq<Peer> {
    var k := Find(ready, q.id);
    if k == |ready| then ready + [q] else ready[k := q]
  }

  // ---------------------------------------------------------------------------
  // Operations
  // ---------------------------------------------------------------------------

  function Accept(p: Pools, now: nat): Pools {
    p.(inFlight := p.inFlight[p.counter := now], counter := p.counter + 1)
  }

  function OnReady(p: Pools, id: nat, now: nat): Pools {
    if id !in p.inFlight then p
    else p.(inFlight := p.inFlight - {id}, ready := With(p.ready, Peer(id, now)))
  }

  function PopReady(p: Pools): (Pools, Option<nat>) {
    if p.ready == [] then (p, None)
    else
      var q := p.ready[0];
      (p.(ready := p.ready[1..], inFlight := p.inFlight[q.id := q.lastReadyAt]), Some(q.id))
  }

  function OnDrainAck(p: Pools, id: nat): Pools { p.(draining := p.draining - {id}) }

  function Cleanup(p: Pools, id: nat): Pools {
    if id in Ids(p.ready) then p.(ready := Without(p.ready, id))
    else if id in p.inFlight then p.(inFlight := p.inFlight - {id})
    else p.(draining := p.draining - {id})
  }

  function MoveToDraining(p: Pools, id: nat): Pools {
    var k := Find(p.ready, id);
    if k == |p.ready| then p
    else p.(ready := Without(p.ready, id), draining := p.draining[id := p.ready[k].lastReadyAt])
  }

  predicate Idle(q: Peer, now: nat) { now > q.lastReadyAt && now - q.lastReadyAt > IDLE_REAP_AFTER }

  /** Ids of the idle slots, in ready order. */
  function Candidates(ready: seq<Peer>, now: nat): seq<nat> {
    if ready == [] then []
    else (if Idle(ready[0], now) then [ready[0].id] else []) + Candidates(ready[1..], now)
  }

  function Sub(a: nat, b: nat): nat { if a < b then 0 else a - b }

  /** The slots one reap drains: the candidates, less the first few that the floor keeps. */
  function ReapList(p: Pools, now: nat, floor: nat): seq<nat> {
    var c := Candidates(p.ready, now);
    var keep := Sub(floor, Sub(|p.ready|, |c|));
    if keep < |c| then c[keep..] else []
  }

  function ReadyKeys(ready: seq<Peer>): (ks: seq<nat>)
    ensures |ks| == |ready|
  {
    seq(|ready|, i requires 0 <= i < |ready| => ready[i].id)
  }

  /** The slots one SIGHUP drains: the excess over the ceiling, oldest ready first. */
  function SighupList(p: Pools, max: nat): seq<nat> {
    var excess := Sub(Total(p), max);
    ReadyKeys(p.ready[..if excess < |p.ready| then excess else |p.ready|])
  }

  function DrainAll(p: Pools, ids: seq<nat>): Pools {
    if ids == [] then p else MoveToDraining(DrainAll(p, ids[..|ids| - 1]), ids[|ids| - 1])
  }

  // ---------------------------------------------------------------------------
  // Where a slot is
  // ---------------------------------------------------------------------------

  datatype Place = Ready | InFlight | Draining | Gone

  function PlaceOf(p: Pools, id: nat): Place {
    if id in Ids(p.ready) then Ready
    else if id in p.inFlight then InFlight
    else if id in p.draining then Draining
    else Gone
  }

  predicate DistinctIds(ready: seq<Peer>) {
    forall i, j :: 0 <= i < j < |ready| ==> ready[i].id != ready[j].id
  }

  /** The containers are disjoint and hold only ids that were handed out. */
  predicate WellFormed(p: Pools) {
    && DistinctIds(p.ready)
    && (forall i :: 0 <= i < |p.ready| ==>
          p.ready[i].id !in p.inFlight && p.ready[i].id !in p.draining && p.ready[i].id < p.counter)
    && (forall id :: id in p.inFlight ==> id !in p.draining && id < p.counter)
    && (forall id :: id in p.draining ==> id < p.counter)
  }

  lemma IdsAppend(ready: seq<Peer>, q: Peer)
    ensures Ids(ready + [q]) == Ids(ready) + {q.id}
  {
    assert q in ready + [q];
    forall r | r in ready ensures r in ready + [q] {}
  }

  lemma IdsWithout(ready: seq<Peer>, id: nat)
    requires DistinctIds(ready)
    ensures Ids(Without(ready, id)) == Ids(ready) - {id}
    ensures DistinctIds(Without(ready, id))
    ensures |Without(ready, id)| == if id in Ids(ready) then |ready| - 1 else |ready|
  {
    var k := Find(ready, id);
    if k < |ready| {
      CutSplits(ready, k);
    }
  }

  lemma CutSplits(ready: seq<Peer>, k: nat)
    requires DistinctIds(ready) && k < |ready|
    ensures Ids(ready[..k] + ready[k + 1..]) == Ids(ready) - {ready[k].id}
  {
    var rest := ready[..k] + ready[k + 1..];
    assert ready == ready[..k] + [ready[k]] + ready[k + 1..];
    assert forall q :: q in ready <==> q in rest || q == ready[k];
    assert forall q :: q in rest ==> q.id != ready[k].id;
    assert Ids(ready) == Ids(rest) + {ready[k].id};
  }

  /** Every operation keeps the containers disjoint and moves only the slot it is about. */
  lemma AcceptPlaces(p: Pools, now: nat)
    requires WellFormed(p)
    ensures WellFormed(Accept(p, now))
    ensures PlaceOf(p, p.counter) == Gone
    ensures forall j :: PlaceOf(Accept(p, now), j) == if j == p.counter then InFlight else PlaceOf(p, j)
  {
  }

  lemma OnReadyPlaces(p: Pools, id: nat, now: nat)
    requires WellFormed(p)
    ensures WellFormed(OnReady(p, id, now))
    ensures forall j :: PlaceOf(OnReady(p, id, now), j)
                        == if j == id && PlaceOf(p, id) == InFlight then Ready else PlaceOf(p, j)
    ensures PlaceOf(p, id) == InFlight ==> OnReady(p, id, now).ready == p.ready + [Peer(id, now)]
  {
    if id in p.inFlight {
      IdsAppend(p.ready, Peer(id, now));
    }
  }

  lemma PopReadyPlaces(p: Pools)
    requires WellFormed(p) && p.ready != []
    ensures WellFormed(PopReady(p).0)
    ensures PlaceOf(p, p.ready[0].id) == Ready
    ensures forall j :: PlaceOf(PopReady(p).0, j) == if j == p.ready[0].id then InFlight else PlaceOf(p, j)
  {
    assert p.ready[0] in p.ready;
    IdsOfRest(p.ready);
  }

  lemma IdsOfRest(ready: seq<Peer>)
    requires DistinctIds(ready) && ready != []
    ensures Ids(ready[1..]) == Ids(ready) - {ready[0].id}
  {
    assert Find(ready, ready[0].id) == 0;
    IdsWithout(ready, ready[0].id);
    assert Without(ready, ready[0].id) == ready[1..];
  }

  lemma CleanupPlaces(p: Pools, id: nat)
    requires WellFormed(p)
    ensures WellFormed(Cleanup(p, id))
    ensures forall j :: PlaceOf(Cleanup(p, id), j) == if j == id then Gone else PlaceOf(p, j)
    ensures |Cleanup(p, id).ready| <= |p.ready|
  {
    if id in Ids(p.ready) {
      RemoveReady(p, id);
    }
  }

  lemma RemoveReady(p: Pools, id: nat)
    requires WellFormed(p) && id in Ids(p.ready)
    ensures var d := p.(ready := Without(p.ready, id));
            WellFormed(d) && forall j :: PlaceOf(d, j) == if j == id then Gone else PlaceOf(p, j)
  {
    var rest := Without(p.ready, id);
    IdsWithout(p.ready, id);
    forall i | 0 <= i < |rest| ensures rest[i] in p.ready {
      WithoutKeeps(p.ready, id);
    }
    ReadyFacts(p, id);
  }

  lemma WithoutKeeps(ready: seq<Peer>, id: nat)
    ensures forall i :: 0 <= i < |Without(ready, id)| ==> Without(ready, id)[i] in ready
  {
  }

  lemma DrainAckPlaces(p: Pools, id: nat)
    requires WellFormed(p)
    ensures WellFormed(OnDrainAck(p, id))
    ensures forall j :: PlaceOf(OnDrainAck(p, id), j)
                        == if j == id && PlaceOf(p, id) == Draining then Gone else PlaceOf(p, j)
  {
  }

  lemma ToDrainingPlaces(p: Pools, id: nat)
    requires WellFormed(p)
    ensures WellFormed(MoveToDraining(p, id))
    ensures forall j :: PlaceOf(MoveToDraining(p, id), j)
                        == if j == id && PlaceOf(p, id) == Ready then Draining else PlaceOf(p, j)
    ensures |MoveToDraining(p, id).ready| <= |p.ready|
  {
    IdsWithout(p.ready, id);
    WithoutKeeps(p.ready, id);
  }

  // ---------------------------------------------------------------------------
  // Counting
  // ---------------------------------------------------------------------------

  lemma {:induction false} IdsCount(ready: seq<Peer>)
    requires DistinctIds(ready)
    ensures |Ids(ready)| == |ready|
  {
    if ready != [] {
      var front, last := ready[..|ready| - 1], ready[|ready| - 1];
      IdsCount(front);
      IdsAppend(front, last);
      assert ready == front + [last];
      assert last.id !in Ids(front);
    }
  }

  function Below(n: nat): (b: set<nat>)
    ensures |b| == n && forall i: nat :: i in b <==> i < n
  {
    if n == 0 then {} else Below(n - 1) + {n - 1}
  }

  /** Ids handed out that no container holds any more. */
  function GoneIds(p: Pools): set<nat> { Below(p.counter) - Ids(p.ready) - p.inFlight.Keys - p.draining.Keys }

  /** Ids handed out are the slots still held plus the slots gone. */
  lemma IdsAccountedFor(p: Pools)
    requires WellFormed(p)
    ensures Total(p) + |GoneIds(p)| == p.counter
  {
    IdsCount(p.ready);
    forall i | i in Ids(p.ready) ensures i !in p.inFlight && i !in p.draining && i < p.counter {
      ReadyFacts(p, i);
    }
    FourParts(Ids(p.ready), p.inFlight.Keys, p.draining.Keys, GoneIds(p), Below(p.counter));
  }

  lemma ReadyFacts(p: Pools, id: nat)
    requires WellFormed(p) && id in Ids(p.ready)
    ensures id !in p.inFlight && id !in p.draining && id < p.counter
  {
    assert p.ready[Find(p.ready, id)].id == id;
  }

  lemma FourParts(a: set<nat>, b: set<nat>, c: set<nat>, d: set<nat>, all: set<nat>)
    requires a !! b !! c !! d
    requires forall i :: i in all <==> i in a || i in b || i in c || i in d
    ensures |a| + |b| + |c| + |d| == |all|
  {
    assert all == a + b + (c + d);
    assert |a + b| == |a| + |b| && |c + d| == |c| + |d|;
  }

  // ---------------------------------------------------------------------------
  // Order, reaping and the ceiling
  // ---------------------------------------------------------------------------

  /** Ready slots stand in the order in which they became ready. */
  predicate Sorted(ready: seq<Peer>, now: nat) {
    && (forall i, j :: 0 <= i <= j < |ready| ==> ready[i].lastReadyAt <= ready[j].lastReadyAt)
    && (forall i :: 0 <= i < |ready| ==> ready[i].lastReadyAt <= now)
  }

  lemma WithoutSorted(ready: seq<Peer>, id: nat, now: nat)
    requires Sorted(ready, now)
    ensures Sorted(Without(ready, id), now)
  {
  }

  /** In a sorted pool the candidates are a prefix: exactly the slots idle for longest. */
  lemma {:induction false} CandidatesArePrefix(ready: seq<Peer>, now: nat)
    requires Sorted(ready, now)
    ensures var c := |Candidates(ready, now)|;
            && c <= |ready| && Candidates(ready, now) == ReadyKeys(ready[..c])
            && (forall i :: 0 <= i < |ready| ==> (Idle(ready[i], now) <==> i < c))
  {
    if ready != [] {
      CandidatesArePrefix(ready[1..], now);
      var c := |Candidates(ready[1..], now)|;
      if Idle(ready[0], now) {
        assert ready[..c + 1] == [ready[0]] + ready[1..][..c];
        assert ReadyKeys(ready[..c + 1]) == [ready[0].id] + ReadyKeys(ready[1..][..c]);
        assert forall i :: 1 <= i < |ready| ==> ready[i] == ready[1..][i - 1];
      } else {
        assert forall i :: 0 <= i < |ready[1..]| ==> ready[1..][i] == ready[i + 1] && !Idle(ready[i + 1], now);
      }
    }
  }

  lemma DrainAt(p: Pools, k: nat)
    requires DistinctIds(p.ready) && k < |p.ready|
    ensures var d := MoveToDraining(p, p.ready[k].id);
            d.ready == p.ready[..k] + p.ready[k + 1..] && d.inFlight == p.inFlight && d.counter == p.counter
  {
    FindAt(p.ready, k);
  }

  lemma ToDrainingPlace(p: Pools, id: nat, j: nat)
    requires WellFormed(p)
    ensures WellFormed(MoveToDraining(p, id))
    ensures PlaceOf(MoveToDraining(p, id), j) == if j == id && PlaceOf(p, j) == Ready then Draining else PlaceOf(p, j)
  {
    ToDrainingPlaces(p, id);
  }

  lemma InSnoc(ids: seq<nat>, id: nat)
    requires ids != []
    ensures id in ids <==> id in ids[..|ids| - 1] || id == ids[|ids| - 1]
  {
    assert ids == ids[..|ids| - 1] + [ids[|ids| - 1]];
  }

  lemma {:induction false} DrainAllPlaces(p: Pools, ids: seq<nat>, id: nat)
    requires WellFormed(p)
    ensures WellFormed(DrainAll(p, ids))
    ensures PlaceOf(DrainAll(p, ids), id) == if id in ids && PlaceOf(p, id) == Ready then Draining else PlaceOf(p, id)
  {
    if ids != [] {
      DrainAllPlaces(p, ids[..|ids| - 1], id);
      ToDrainingPlace(DrainAll(p, ids[..|ids| - 1]), ids[|ids| - 1], id);
      InSnoc(ids, id);
    }
  }

  lemma DrainingPlace(p: Pools, id: nat)
    requires WellFormed(p)
    ensures id in p.draining <==> PlaceOf(p, id) == Draining
  {
    if id in Ids(p.ready) {
      ReadyFacts(p, id);
    }
  }

  /** `d` is `p` with the ready slots from lo up to hi taken out of the ready order. */
  predicate CutOut(p: Pools, d: Pools, lo: nat, hi: nat)
    requires lo <= hi <= |p.ready|
  {
    d.ready == p.ready[..lo] + p.ready[hi..] && d.inFlight == p.inFlight && d.counter == p.counter
  }

  /** One drain, at position `k` of the ready order if that is where the slot stands. */
  predicate Link(d: Pools, id: nat, e: Pools, k: nat) {
    && e.inFlight == d.inFlight && e.counter == d.counter
    && (k < |d.ready| && d.ready[k].id == id ==> e.ready == d.ready[..k] + d.ready[k + 1..])
  }

  lemma DrainLinks(d: Pools, id: nat, k: nat)
    requires WellFormed(d)
    ensures Link(d, id, MoveToDraining(d, id), k)
  {
    if k < |d.ready| && d.ready[k].id == id {
      DrainAt(d, k);
    }
  }

  /** The states between the drains of a list. */
  lemma {:induction false} DrainChain(p: Pools, ids: seq<nat>, k: nat) returns (ds: seq<Pools>)
    requires WellFormed(p)
    ensures |ds| == |ids| + 1 && ds[0] == p && ds[|ids|] == DrainAll(p, ids)
    ensures forall i :: 0 <= i < |ids| ==> Link(ds[i], ids[i], ds[i + 1], k)
  {
    if ids == [] {
      ds := [p];
    } else {
      var n := |ids| - 1;
      var front := DrainChain(p, ids[..n], k);
      DrainKeepsTotal(p, ids[..n]);
      DrainLinks(DrainAll(p, ids[..n]), ids[n], k);
      ds := front + [DrainAll(p, ids)];
      forall i | 0 <= i < |ids| ensures Link(ds[i], ids[i], ds[i + 1], k) {
        if i < n { assert Link(front[i], ids[..n][i], front[i + 1], k); }
      }
    }
  }

  lemma {:induction false} ChainCuts(p: Pools, lo: nat, ids: seq<nat>, ds: seq<Pools>, n: nat)
    requires lo + |ids| <= |p.ready| && |ds| == |ids| + 1 && ds[0] == p && n <= |ids|
    requires forall i :: 0 <= i < |ids| ==> Link(ds[i], ids[i], ds[i + 1], lo) && ids[i] == p.ready[lo + i].id
    ensures ds[n].ready == p.ready[..lo] + p.ready[lo + n..]
    ensures ds[n].inFlight == p.inFlight && ds[n].counter == p.counter
  {
    if n > 0 {
      ChainCuts(p, lo, ids, ds, n - 1);
      var before := ds[n - 1].ready;
      assert Link(ds[n - 1], ids[n - 1], ds[n], lo);
      assert before[lo] == p.ready[lo + n - 1];
      assert before[..lo] + before[lo + 1..] == p.ready[..lo] + p.ready[lo + n..];
    }
  }

  lemma DrainedKeys(p: Pools, d: Pools, run: seq<Peer>)
    requires WellFormed(p) && run <= p.ready && d == DrainAll(p, ReadyKeys(run))
    ensures d.draining.Keys == p.draining.Keys + Ids(run)
  {
    DrainKeepsTotal(p, ReadyKeys(run));
    forall id: nat ensures id in d.draining <==> id in p.draining || id in Ids(run) {
      DrainAllPlaces(p, ReadyKeys(run), id);
      DrainingPlace(p, id);
      DrainingPlace(d, id);
      KeysAreIds(run, id);
      if id in Ids(run) { PrefixReady(p.ready, run, id); }
    }
  }

  lemma KeysAreIds(run: seq<Peer>, id: nat)
    ensures id in ReadyKeys(run) <==> id in Ids(run)
  {
    if id in ReadyKeys(run) {
      var i :| 0 <= i < |run| && ReadyKeys(run)[i] == id;
      assert run[i] in run;
    }
    if id in Ids(run) {
      var q :| q in run && q.id == id;
      var i :| 0 <= i < |run| && run[i] == q;
      assert ReadyKeys(run)[i] == id;
    }
  }

  lemma PrefixReady(ready: seq<Peer>, run: seq<Peer>, id: nat)
    requires run <= ready && id in Ids(run)
    ensures id in Ids(ready)
  {
    var q :| q in run && q.id == id;
    assert q in ready;
  }

  /** Draining a run of consecutive ready slots cuts that run out and loses none. */
  lemma DrainRun(p: Pools, lo: nat, hi: nat) returns (d: Pools)
    requires WellFormed(p) && lo <= hi <= |p.ready|
    ensures d == DrainAll(p, ReadyKeys(p.ready[lo..hi])) && CutOut(p, d, lo, hi)
    ensures WellFormed(d) && Total(d) == Total(p)
  {
    var ids := ReadyKeys(p.ready[lo..hi]);
    d := DrainAll(p, ids);
    var ds := DrainChain(p, ids, lo);
    ChainCuts(p, lo, ids, ds, |ids|);
    DrainKeepsTotal(p, ids);
  }

  lemma {:induction false} FindAt(ready: seq<Peer>, k: nat)
    requires DistinctIds(ready) && k < |ready|
    ensures Find(ready, ready[k].id) == k
  {
    if k > 0 {
      FindAt(ready[1..], k - 1);
    }
  }

  function Max(a: nat, b: nat): nat { if a < b then b else a }

  function Min(a: nat, b: nat): nat { if a < b then a else b }

  /** One reap of C candidates among R ready slots leaves max(R - C, min(R, floor)) of them, whatever the floor. */
  lemma ReapLeaves(p: Pools, now: nat, floor: nat)
    requires WellFormed(p) && Sorted(p.ready, now)
    ensures var r, c := |p.ready|, |Candidates(p.ready, now)|;
            var d := DrainAll(p, ReapList(p, now, floor));
            var keep := Min(c, Sub(floor, Sub(r, c)));
            && c <= r && d.ready == p.ready[..keep] + p.ready[c..]
            && |d.ready| == Max(r - c, Min(r, floor))
            && Total(d) == Total(p)
  {
    var c := ReapListIs(p, now, floor);
    var keep := Sub(floor, |p.ready| - c);
    if keep < c {
      ReapCut(p, keep, c);
    } else {
      assert p.ready[..c] + p.ready[c..] == p.ready;
    }
  }

  lemma ReapListIs(p: Pools, now: nat, floor: nat) returns (c: nat)
    requires Sorted(p.ready, now)
    ensures c == |Candidates(p.ready, now)| <= |p.ready|
    ensures var keep := Sub(floor, |p.ready| - c);
            ReapList(p, now, floor) == if keep < c then ReadyKeys(p.ready[keep..c]) else []
  {
    CandidatesArePrefix(p.ready, now);
    c := |Candidates(p.ready, now)|;
    var keep := Sub(floor, |p.ready| - c);
    if keep < c {
      assert ReadyKeys(p.ready[..c])[keep..] == ReadyKeys(p.ready[keep..c]);
    }
  }

  lemma ReapCut(p: Pools, keep: nat, c: nat)
    requires WellFormed(p) && keep < c <= |p.ready|
    ensures var d := DrainAll(p, ReadyKeys(p.ready[keep..c]));
            d.ready == p.ready[..keep] + p.ready[c..] && Total(d) == Total(p)
  {
    var d := DrainRun(p, keep, c);
  }

  /** One SIGHUP drains exactly the min(total - max, R) slots that have been ready longest. */
  lemma SighupDrainsOldest(p: Pools, max: nat)
    requires WellFormed(p)
    ensures var n := Min(Sub(Total(p), max), |p.ready|);
            var d := DrainAll(p, SighupList(p, max));
            && d.ready == p.ready[n..] && d.draining.Keys == p.draining.Keys + Ids(p.ready[..n])
            && d.inFlight == p.inFlight && Total(d) == Total(p)
  {
    var n := Min(Sub(Total(p), max), |p.ready|);
    assert p.ready[0..n] == p.ready[..n];
    var d := DrainRun(p, 0, n);
    DrainedKeys(p, d, p.ready[..n]);
    assert p.ready[..0] + p.ready[n..] == p.ready[n..];
  }

  /** Draining moves slots, it does not lose any. */
  lemma {:induction false} DrainKeepsTotal(p: Pools, ids: seq<nat>)
    requires WellFormed(p)
    ensures WellFormed(DrainAll(p, ids)) && Total(DrainAll(p, ids)) == Total(p)
  {
    if ids != [] {
      var front, last := ids[..|ids| - 1], ids[|ids| - 1];
      DrainKeepsTotal(p, front);
      var d := DrainAll(p, front);
      ToDrainingPlaces(d, last);
      IdsWithout(d.ready, last);
      if last in Ids(d.ready) {
        var k := Find(d.ready, last);
        assert d.ready[k].id == last;
        assert d.draining[last := d.ready[k].lastReadyAt].Keys == d.draining.Keys + {last};
      }
    }
  }
}
