/** The slots' way through the containers over every run: ids, drains, deadlines and order. */
module ProtocolLifecycle {
  import opened PoolState
  import opened Protocol
  import opened ProtocolInv
  import opened ProtocolTheorems

  // ---------------------------------------------------------------------------
  // Moves between containers
  // ---------------------------------------------------------------------------

  /** The only moves a slot that was already accepted can make. */
  predicate PlaceMoves(a: Place, b: Place) {
    a == b || b == Gone || (a == InFlight && b == Ready) || (a == Ready && b in {InFlight, Draining})
  }

  /** The slot an event is about, for the events of readers, watchdogs and slot processes. */
  predicate About(e: Event, id: nat) {
    match e
    case ReaderRecv(k) => k == id
    case ReaderExit(k) => k == id
    case Watchdog(k) => k == id
    case SlotReady(k) => k == id
    case SlotRecv(k, _) => k == id
    case SlotEnd(k) => k == id
    case SlotDie(k) => k == id
    case _ => true
  }

  /** What one step may do to the container of one slot. */
  predicate PlaceRule(s: Sys, e: Event, t: Sys, id: nat) {
    var a, b := PlaceOf(s.pools, id), PlaceOf(t.pools, id);
    && (id < s.pools.counter ==> PlaceMoves(a, b))
    && (id < s.pools.counter && a == Gone ==> b == Gone)
    && (b != a ==> About(e, id))
    && (a == Ready && b == Draining ==> DrainEvent(e))
    && (id >= s.pools.counter ==> a == Gone && b == if e == AcceptSlot && id == s.pools.counter then InFlight else Gone)
    && t.pools.counter == s.pools.counter + B(e == AcceptSlot)
  }

  predicate QuietEvent(e: Event) {
    e.SendOk? || e.SendFail? || e.GiveUp? || e.SlotReady? || e.SlotRecv? || e.SlotEnd? || e.SlotDie? || e.Tick?
  }

  lemma PoolsStand(s: Sys, e: Event)
    requires QuietEvent(e)
    ensures Step(s, e).pools == s.pools
  {
  }

  lemma PlaceStep(s: Sys, e: Event, id: nat)
    requires Inv(s) && Enabled(s, e)
    ensures PlaceRule(s, e, Step(s, e), id)
  {
    NothingAbove(s.pools, id);
    if QuietEvent(e) {
      QuietPlaces(s, e, id);
    } else if DrainEvent(e) {
      DrainPlaces(s, e, id);
    } else {
      TaskPlaces(s, e, id);
    }
  }

  lemma QuietPlaces(s: Sys, e: Event, id: nat)
    requires QuietEvent(e) && (id >= s.pools.counter ==> PlaceOf(s.pools, id) == Gone)
    ensures PlaceRule(s, e, Step(s, e), id)
  {
    PoolsStand(s, e);
  }

  lemma DrainPlaces(s: Sys, e: Event, id: nat)
    requires Inv(s) && DrainEvent(e) && (id >= s.pools.counter ==> PlaceOf(s.pools, id) == Gone)
    ensures PlaceRule(s, e, Step(s, e), id)
  {
    DrainEventAt(s, e, id);
  }

  lemma TaskPlaces(s: Sys, e: Event, id: nat)
    requires SlotsOk(s) && Enabled(s, e) && !QuietEvent(e) && !DrainEvent(e)
    requires id >= s.pools.counter ==> PlaceOf(s.pools, id) == Gone
    ensures PlaceRule(s, e, Step(s, e), id)
  {
    if e.AcceptSlot? {
      NewSlotPlaces(s, id);
    } else if e.Arrive? || e.Resume? {
      HandoffPlaces(s, e, id);
    } else if e.ReaderRecv? {
      ReaderRecvPlaces(s, e.id, id);
    } else if e.ReaderExit? {
      ReaderExitPlaces(s, e.id, id);
    } else {
      WatchdogPlaces(s, e.id, id);
    }
  }

  lemma NewSlotPlaces(s: Sys, id: nat)
    requires WellFormed(s.pools)
    requires id >= s.pools.counter ==> PlaceOf(s.pools, id) == Gone
    ensures PlaceRule(s, AcceptSlot, Step(s, AcceptSlot), id)
  {
    AcceptPlaces(s.pools, s.now);
  }

  lemma HandoffPlaces(s: Sys, e: Event, id: nat)
    requires WellFormed(s.pools) && Enabled(s, e) && (e.Arrive? || e.Resume?)
    requires id >= s.pools.counter ==> PlaceOf(s.pools, id) == Gone
    ensures PlaceRule(s, e, Step(s, e), id)
  {
    DispatchPlaces(if e.Arrive? then s else s.(woken := s.woken - {e.fd}), e.fd, id);
  }

  lemma ReaderExitPlaces(s: Sys, k: nat, id: nat)
    requires WellFormed(s.pools) && Enabled(s, ReaderExit(k))
    ensures var p := Step(s, ReaderExit(k)).pools;
            && p.counter == s.pools.counter
            && PlaceOf(p, id) == if id == k then Gone else PlaceOf(s.pools, id)
  {
    CleanupPlaces(s.pools, k);
  }

  lemma WatchdogPlaces(s: Sys, k: nat, id: nat)
    requires SlotsOk(s) && Enabled(s, Watchdog(k))
    ensures var t := Step(s, Watchdog(k));
            && t.pools.counter == s.pools.counter && t.now == s.now && t.watch == s.watch - {k}
            && PlaceOf(t.pools, id)
               == if id == k && PlaceOf(s.pools, id) == Draining then Gone else PlaceOf(s.pools, id)
  {
    DrainAckPlaces(s.pools, k);
    if k in s.pools.draining {
      ReadyIsNotDraining(s.pools, k);
    }
  }

  lemma ReadyIsNotDraining(p: Pools, k: nat)
    requires WellFormed(p) && k in p.draining
    ensures PlaceOf(p, k) == Draining && k < p.counter
  {
    if k in Ids(p.ready) {
      ReadyFacts(p, k);
    }
  }

  lemma DrainEventAt(s: Sys, e: Event, id: nat)
    requires Inv(s) && DrainEvent(e)
    ensures SameAt(s, Step(s, e), id) || DrainedAt(s, Step(s, e), id)
    ensures Step(s, e).now == s.now && Step(s, e).pools.counter == s.pools.counter
  {
    DrainStepAt(s, e, id);
    DrainStepPools(s, e);
  }

  lemma NothingAbove(p: Pools, id: nat)
    requires WellFormed(p)
    ensures id >= p.counter ==> PlaceOf(p, id) == Gone
  {
    if id in Ids(p.ready) {
      ReadyFacts(p, id);
    }
  }

  lemma DispatchPlaces(s: Sys, fd: Fd, id: nat)
    requires WellFormed(s.pools)
    ensures var p := TryDispatch(s, fd).pools;
            && p.counter == s.pools.counter
            && (PlaceOf(p, id) == PlaceOf(s.pools, id) || (PlaceOf(s.pools, id) == Ready && PlaceOf(p, id) == InFlight))
  {
    if s.pools.ready != [] {
      PopReadyPlaces(s.pools);
    }
  }

  lemma ReaderRecvPlaces(s: Sys, k: nat, id: nat)
    requires SlotsOk(s) && Enabled(s, ReaderRecv(k))
    ensures var p := Step(s, ReaderRecv(k)).pools;
            && p.counter == s.pools.counter
            && (id != k ==> PlaceOf(p, id) == PlaceOf(s.pools, id))
            && (id == k ==> PlaceOf(p, id) == Gone || (PlaceOf(s.pools, id) == InFlight && PlaceOf(p, id) == Ready))
  {
    assert SlotAt(s, k);
    if s.slots[k].up[0] == R {
      ReadyIsNotify(s, k);
      OnReadyPlaces(s.pools, k, s.now);
    } else {
      AckStep(s, k);
      AckPlaces(s.pools, k, id);
    }
  }

  lemma AckPlaces(p: Pools, k: nat, id: nat)
    requires WellFormed(p)
    ensures var q := Cleanup(OnDrainAck(p, k), k);
            q.counter == p.counter && PlaceOf(q, id) == if id == k then Gone else PlaceOf(p, id)
  {
    DrainAckPlaces(p, k);
    CleanupPlaces(OnDrainAck(p, k), k);
  }

  /**
    Over every run: a slot goes only from in flight to ready, from ready to in flight
    or draining, and from anywhere to gone, never back from draining or gone; a reader
    or a watchdog changes the place of its own slot only; an id comes into being only
    by being accepted, as the next number.
  */
  lemma SlotLifecycle(es: seq<Event>, e: Event, id: nat)
    ensures var s := Exec(INIT, es);
            var a, b := PlaceOf(s.pools, id), PlaceOf(Step(s, e).pools, id);
            && (id < s.pools.counter ==> PlaceMoves(a, b))
            && (id < s.pools.counter && a == Gone ==> b == Gone)
            && (b != a ==> About(e, id))
            && (id >= s.pools.counter && b != Gone ==> e == AcceptSlot && id == s.pools.counter && b == InFlight)
  {
    var s := Exec(INIT, es);
    ReachableInv(es);
    if Enabled(s, e) {
      PlaceStep(s, e, id);
    } else {
      NothingAbove(s.pools, id);
    }
  }

  /** Gone is final: an id that left is never handed out, nor its slot seen again. */
  lemma {:induction false} GoneIsFinal(es: seq<Event>, more: seq<Event>, id: nat)
    requires var s := Exec(INIT, es);
             id < s.pools.counter && PlaceOf(s.pools, id) == Gone
    ensures var t := Exec(Exec(INIT, es), more);
            id < t.pools.counter && PlaceOf(t.pools, id) == Gone
  {
    if more != [] {
      var n := |more| - 1;
      GoneIsFinal(es, more[..n], id);
      ReachableInv(es);
      RunKeeps(Exec(INIT, es), more[..n]);
      var s := Exec(Exec(INIT, es), more[..n]);
      if Enabled(s, more[n]) {
        PlaceStep(s, more[n], id);
      }
    }
  }

  function Accepts(es: seq<Event>): nat {
    if es == [] then 0 else Accepts(es[..|es| - 1]) + B(es[|es| - 1] == AcceptSlot)
  }

  lemma CounterStep(s: Sys, e: Event)
    requires Inv(s)
    ensures Step(s, e).pools.counter == s.pools.counter + B(e == AcceptSlot)
  {
    if Enabled(s, e) {
      PlaceStep(s, e, 0);
    }
  }

  lemma {:induction false} CounterIsAccepts(es: seq<Event>)
    ensures Exec(INIT, es).pools.counter == Accepts(es)
  {
    if es != [] {
      var n := |es| - 1;
      CounterIsAccepts(es[..n]);
      ReachableInv(es[..n]);
      CounterStep(Exec(INIT, es[..n]), es[n]);
    }
  }

  /** Slots accepted over a run are the slots still held plus the slots gone, each id below the counter used once. */
  lemma SlotsConserved(es: seq<Event>)
    ensures var p := Exec(INIT, es).pools;
            && p.counter == Accepts(es)
            && Total(p) + |GoneIds(p)| == Accepts(es)
  {
    ReachableInv(es);
    IdsAccountedFor(Exec(INIT, es).pools);
    CounterIsAccepts(es);
  }

  // ---------------------------------------------------------------------------
  // Drains end in time
  // ---------------------------------------------------------------------------

  /** Timers fire when they are due: time does not pass a pending deadline. */
  predicate OnTime(s: Sys, e: Event) {
    e.Tick? ==> forall id :: id in s.watch ==> s.now + e.ms <= s.watch[id]
  }

  predicate Punctual(s: Sys, es: seq<Event>) {
    es == [] || (Punctual(s, es[..|es| - 1]) && OnTime(Exec(s, es[..|es| - 1]), es[|es| - 1]))
  }

  lemma ClocksStand(s: Sys, e: Event)
    requires !DrainEvent(e) && !e.Watchdog?
    ensures Step(s, e).watch == s.watch && (!e.Tick? ==> Step(s, e).now == s.now)
  {
    if e.ReaderRecv? {
      ReaderRecvFrame(s, e.id);
    }
  }

  /** A draining slot's deadline stands for as long as it drains. */
  lemma DeadlineStands(s: Sys, e: Event, id: nat)
    requires Inv(s) && PlaceOf(s.pools, id) == Draining
    ensures var t := Step(s, e);
            && PlaceOf(t.pools, id) in {Draining, Gone}
            && (PlaceOf(t.pools, id) == Draining ==> id in s.watch && id in t.watch && t.watch[id] == s.watch[id])
            && (!e.Tick? ==> t.now == s.now)
  {
    NothingAbove(s.pools, id);
    if Enabled(s, e) {
      PlaceStep(s, e, id);
      if DrainEvent(e) {
        DrainEventAt(s, e, id);
      } else if e.Watchdog? {
        WatchdogPlaces(s, e.id, id);
      } else {
        ClocksStand(s, e);
      }
    }
  }

  lemma {:induction false} DrainingUntil(s: Sys, es: seq<Event>, id: nat)
    requires Inv(s) && PlaceOf(s.pools, id) == Draining && s.now <= s.watch[id] && Punctual(s, es)
    ensures var t := Exec(s, es);
            && PlaceOf(t.pools, id) in {Draining, Gone} && id < t.pools.counter
            && (PlaceOf(t.pools, id) == Draining ==>
                  id in t.watch && t.watch[id] == s.watch[id] && t.now <= s.watch[id])
  {
    NothingAbove(s.pools, id);
    if es != [] {
      var n := |es| - 1;
      DrainingUntil(s, es[..n], id);
      RunKeeps(s, es[..n]);
      var u := Exec(s, es[..n]);
      if Enabled(u, es[n]) {
        PlaceStep(u, es[n], id);
      }
      if PlaceOf(u.pools, id) == Draining {
        DeadlineStands(u, es[n], id);
      }
    }
  }

  lemma StartsToDrain(s: Sys, e: Event, id: nat)
    requires Inv(s) && PlaceOf(s.pools, id) == Ready && PlaceOf(Step(s, e).pools, id) == Draining
    ensures var t := Step(s, e);
            && Inv(t) && id < t.pools.counter && DrainEvent(e) && t.now == s.now
            && id in t.watch && t.watch[id] == s.now + DRAIN_ACK_TIMEOUT
  {
    StepKeeps(s, e);
    PlaceStep(s, e, id);
    DrainEventAt(s, e, id);
    NothingAbove(Step(s, e).pools, id);
  }

  /** Whatever else happens, a slot that starts to drain is gone DRAIN_ACK_TIMEOUT later, if timers fire on time. */
  lemma DrainsInTime(es: seq<Event>, e: Event, more: seq<Event>, id: nat)
    requires var s := Exec(INIT, es);
             PlaceOf(s.pools, id) == Ready && PlaceOf(Step(s, e).pools, id) == Draining && Punctual(Step(s, e), more)
    ensures var s := Exec(INIT, es);
            var t := Exec(Step(s, e), more);
            && PlaceOf(t.pools, id) in {Draining, Gone}
            && (t.now > s.now + DRAIN_ACK_TIMEOUT ==> PlaceOf(t.pools, id) == Gone)
            && (t.now == s.now + DRAIN_ACK_TIMEOUT ==> PlaceOf(Step(t, Watchdog(id)).pools, id) == Gone)
  {
    var s := Exec(INIT, es);
    ReachableInv(es);
    StartsToDrain(s, e, id);
    DrainingUntil(Step(s, e), more, id);
    RunKeeps(Step(s, e), more);
    WatchdogOn(Exec(Step(s, e), more), id);
  }

  /** What the watchdog does at any moment: nothing before its deadline, and from then on the drain is over. */
  lemma WatchdogOn(s: Sys, id: nat)
    requires Inv(s) && id < s.pools.counter && PlaceOf(s.pools, id) in {Draining, Gone}
    ensures var t := Step(s, Watchdog(id));
            && (PlaceOf(s.pools, id) == Gone ==> PlaceOf(t.pools, id) == Gone)
            && (PlaceOf(s.pools, id) == Draining ==>
                  id in s.watch && PlaceOf(t.pools, id) == if s.watch[id] <= s.now then Gone else Draining)
            && (PlaceOf(s.pools, id) == Draining && s.watch[id] <= s.now ==> id in t.slots && t.slots[id].closed)
  {
    if Enabled(s, Watchdog(id)) {
      WatchdogPlaces(s, id, id);
    }
  }

  /** In every reachable state a draining slot has a watchdog, which at its deadline removes and shuts it. */
  lemma WatchdogWorks(es: seq<Event>, id: nat)
    requires PlaceOf(Exec(INIT, es).pools, id) == Draining
    ensures var s := Exec(INIT, es);
            var t := Step(s, Watchdog(id));
            && id in s.watch
            && PlaceOf(t.pools, id) == (if s.watch[id] <= s.now then Gone else Draining)
            && (s.watch[id] <= s.now ==> id in t.slots && t.slots[id].closed)
  {
    ReachableInv(es);
    NothingAbove(Exec(INIT, es).pools, id);
    WatchdogOn(Exec(INIT, es), id);
  }

  lemma WatchdogAfter(s: Sys, ms: nat, id: nat)
    requires Inv(s) && id < s.pools.counter && PlaceOf(s.pools, id) == Draining
    ensures var t := Step(s, Tick(ms));
            && t.now == s.now + ms && id in s.watch
            && PlaceOf(Step(t, Watchdog(id)).pools, id) == if s.watch[id] <= s.now + ms then Gone else Draining
  {
    StepKeeps(s, Tick(ms));
    WatchdogOn(Step(s, Tick(ms)), id);
  }

  /** Left alone, a drain whose ack never comes ends after 60 seconds and not before. */
  lemma DrainEndsAlone(es: seq<Event>, e: Event, ms: nat, id: nat)
    requires var s := Exec(INIT, es);
             PlaceOf(s.pools, id) == Ready && PlaceOf(Step(s, e).pools, id) == Draining
    ensures var s := Exec(INIT, es);
            var t := Step(Step(s, e), Tick(ms));
            && t.now == s.now + ms
            && PlaceOf(Step(t, Watchdog(id)).pools, id) == if ms >= 60_000 then Gone else Draining
  {
    var s := Exec(INIT, es);
    ReachableInv(es);
    StartsToDrain(s, e, id);
    WatchdogAfter(Step(s, e), ms, id);
  }

  // ---------------------------------------------------------------------------
  // Order of service, reaping and the ceiling
  // ---------------------------------------------------------------------------

  /** A handoff that gets a slot gets the one that has been ready longest. */
  lemma DispatchTakesLongestIdle(es: seq<Event>, e: Event)
    requires var s := Exec(INIT, es);
             (e.Arrive? || e.Resume?) && Enabled(s, e) && s.pools.ready != []
    ensures var s, t := Exec(INIT, es), Step(Exec(INIT, es), e);
            exists q :: q in s.pools.ready && t.fates[e.fd] == Sending(q.id)
                        && forall r :: r in s.pools.ready ==> q.lastReadyAt <= r.lastReadyAt
  {
    var s := Exec(INIT, es);
    ReachableInv(es);
    var q := s.pools.ready[0];
    assert q in s.pools.ready && Step(s, e).fates[e.fd] == Sending(q.id);
  }

  lemma ReachablePools(es: seq<Event>)
    ensures var s := Exec(INIT, es);
            WellFormed(s.pools) && Sorted(s.pools.ready, s.now)
  {
    ReachableInv(es);
  }

  /**
    At any moment of any run, one reap of C candidates among R ready slots leaves
    max(R - C, min(R, floor)) ready, cutting one block out of the longest idle, and
    loses none.
  */
  lemma ReapKeepsFloor(es: seq<Event>, floor: nat, sends: set<nat>)
    ensures var s, t := Exec(INIT, es), Step(Exec(INIT, es), Reap(floor, sends));
            var r, c := |s.pools.ready|, |Candidates(s.pools.ready, s.now)|;
            var keep := Min(c, Sub(floor, Sub(r, c)));
            && c <= r && (forall i :: 0 <= i < r ==> (Idle(s.pools.ready[i], s.now) <==> i < c))
            && t.pools.ready == s.pools.ready[..keep] + s.pools.ready[c..]
            && |t.pools.ready| == Max(r - c, Min(r, floor))
            && Total(t.pools) == Total(s.pools)
  {
    ReachablePools(es);
    var s := Exec(INIT, es);
    DrainStepPools(s, Reap(floor, sends));
    CandidatesArePrefix(s.pools.ready, s.now);
    ReapLeaves(s.pools, s.now, floor);
  }

  /** At any moment, lowering the ceiling drains exactly min(total - max, R) ready slots, those ready longest. */
  lemma SighupDrainsExcess(es: seq<Event>, max: nat, sends: set<nat>)
    ensures var s, t := Exec(INIT, es), Step(Exec(INIT, es), Sighup(max, sends));
            var n := Min(Sub(Total(s.pools), max), |s.pools.ready|);
            && t.pools.ready == s.pools.ready[n..] && t.pools.inFlight == s.pools.inFlight
            && t.pools.draining.Keys == s.pools.draining.Keys + Ids(s.pools.ready[..n])
            && (forall i, j :: 0 <= i < n <= j < |s.pools.ready| ==>
                  s.pools.ready[i].lastReadyAt <= s.pools.ready[j].lastReadyAt)
  {
    ReachablePools(es);
    var s := Exec(INIT, es);
    DrainStepPools(s, Sighup(max, sends));
    SighupDrainsOldest(s.pools, max);
  }
}
