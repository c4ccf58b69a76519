/**
  What holds over every run of the frontend and its slots. A run is any list of
  events from the empty system; events that cannot happen change nothing.
*/
module ProtocolTheorems {
  import opened DrainRequests
  import opened PoolState
  import opened Protocol
  import opened ProtocolInv

  // ---------------------------------------------------------------------------
  // What a drain leaves alone
  // ---------------------------------------------------------------------------

  /** Slot `j`, its container and its timer are the same in both states. */
  predicate SameAt(s: Sys, t: Sys, j: nat) {
    && PlaceOf(t.pools, j) == PlaceOf(s.pools, j)
    && (j in t.slots <==> j in s.slots) && (j in s.slots ==> t.slots[j] == s.slots[j])
    && (j in t.watch <==> j in s.watch) && (j in s.watch ==> t.watch[j] == s.watch[j])
  }

  /** Slot `j` went from ready to draining, its timer started, and 'X' is on its way if the slot lives to read it. */
  predicate DrainedAt(s: Sys, t: Sys, j: nat) {
    && PlaceOf(s.pools, j) == Ready && PlaceOf(t.pools, j) == Draining
    && j in t.watch && t.watch[j] == s.now + DRAIN_ACK_TIMEOUT
    && j in s.slots && j in t.slots
    && (t.slots[j] == s.slots[j] || (SlotIdle(s.slots[j]) && t.slots[j] == s.slots[j].(down := [Drain])))
  }

  lemma DrainOneAt(s: Sys, id: nat, sendOk: bool, j: nat)
    requires Inv(s)
    ensures SameAt(s, DrainOne(s, id, sendOk), j) || DrainedAt(s, DrainOne(s, id, sendOk), j)
  {
    if id in Ids(s.pools.ready) {
      ReadyFacts(s.pools, id);
      assert SlotAt(s, id);
      DrainedOne(s, id, sendOk, j);
    }
  }

  lemma DrainedOne(s: Sys, id: nat, sendOk: bool, j: nat)
    requires WellFormed(s.pools) && id in Ids(s.pools.ready) && id in s.slots && SlotAt(s, id)
    ensures if j == id then DrainedAt(s, DrainOne(s, id, sendOk), j) else SameAt(s, DrainOne(s, id, sendOk), j)
  {
    ToDrainingPlaces(s.pools, id);
  }

  /** A drain touches only ready slots, and sends 'X' only to idle ones. */
  lemma {:induction false} DrainManyAt(s: Sys, ids: seq<nat>, sends: set<nat>, j: nat)
    requires Inv(s)
    ensures SameAt(s, DrainMany(s, ids, sends), j) || DrainedAt(s, DrainMany(s, ids, sends), j)
  {
    if ids != [] {
      var front, last := ids[..|ids| - 1], ids[|ids| - 1];
      DrainManyAt(s, front, sends, j);
      DrainManyKeeps(s, front, sends);
      DrainManyPools(s, front, sends);
      DrainOneAt(DrainMany(s, front, sends), last, last in sends, j);
    }
  }

  /** Draining in the running system is draining in the containers, and moves no connection. */
  lemma {:induction false} DrainManyPools(s: Sys, ids: seq<nat>, sends: set<nat>)
    ensures var t := DrainMany(s, ids, sends);
            && t.pools == DrainAll(s.pools, ids) && t.pools.counter == s.pools.counter && t.now == s.now
            && t.fates == s.fates && t.waiters == s.waiters && t.woken == s.woken && t.permit == s.permit
            && t.sending == s.sending && t.stuck == s.stuck
  {
    if ids != [] {
      DrainManyPools(s, ids[..|ids| - 1], sends);
    }
  }

  predicate DrainEvent(e: Event) { e.Reap? || e.Sighup? }

  /** The slots a reap or a ceiling drain lists. */
  function DrainList(s: Sys, e: Event): seq<nat>
    requires DrainEvent(e)
  {
    match e
    case Reap(floor, _) => ReapList(s.pools, s.now, floor)
    case Sighup(max, _) => SighupList(s.pools, max)
  }

  lemma DrainStep(s: Sys, e: Event)
    requires DrainEvent(e)
    ensures Step(s, e) == DrainMany(s, DrainList(s, e), e.sends)
  {
  }

  lemma DrainStepPools(s: Sys, e: Event)
    requires DrainEvent(e)
    ensures var t := Step(s, e);
            && t.pools == DrainAll(s.pools, DrainList(s, e)) && t.pools.counter == s.pools.counter && t.now == s.now
            && t.fates == s.fates && t.waiters == s.waiters && t.woken == s.woken && t.permit == s.permit
            && t.sending == s.sending && t.stuck == s.stuck
  {
    DrainStep(s, e);
    DrainManyPools(s, DrainList(s, e), e.sends);
  }

  lemma DrainStepAt(s: Sys, e: Event, id: nat)
    requires Inv(s) && DrainEvent(e)
    ensures SameAt(s, Step(s, e), id) || DrainedAt(s, Step(s, e), id)
  {
    DrainStep(s, e);
    DrainManyAt(s, DrainList(s, e), e.sends, id);
  }

  function SentX(sl: Slot, sendOk: bool): Slot {
    if sendOk && !sl.pc.Exited? && !sl.closed then sl.(down := sl.down + [Drain]) else sl
  }

  lemma DrainOneSlot(s: Sys, k: nat, sendOk: bool, id: nat)
    requires k in Ids(s.pools.ready) && id in s.slots
    ensures var t := DrainOne(s, k, sendOk);
            id in t.slots && t.slots[id] == if id == k then SentX(s.slots[id], sendOk) else s.slots[id]
  {
  }

  lemma {:induction false} DrainManySlots(s: Sys, ids: seq<nat>, sends: set<nat>, id: nat)
    requires WellFormed(s.pools) && DistinctReady(s.pools, ids) && id in s.slots
    ensures var t := DrainMany(s, ids, sends);
            id in t.slots && t.slots[id] == if id in ids then SentX(s.slots[id], id in sends) else s.slots[id]
  {
    if ids != [] {
      var front, last := ids[..|ids| - 1], ids[|ids| - 1];
      DrainManySlots(s, front, sends, id);
      DrainManyPools(s, front, sends);
      StillReady(s.pools, front, last);
      DrainOneSlot(DrainMany(s, front, sends), last, last in sends, id);
      assert ids == front + [last] && last !in front;
    }
  }

  lemma DrainStepSends(s: Sys, e: Event, id: nat)
    requires Inv(s) && DrainEvent(e) && id in s.slots
    ensures var t := Step(s, e);
            && id in t.slots
            && t.slots[id] == if id in DrainList(s, e) then SentX(s.slots[id], id in e.sends) else s.slots[id]
    ensures id in DrainList(s, e) ==> !s.slots[id].closed && s.slots[id].down == []
  {
    ListsAreReady(s.pools, s.now, if e.Reap? then e.floor else 0, if e.Reap? then 0 else e.max);
    DrainStep(s, e);
    DrainManySlots(s, DrainList(s, e), e.sends, id);
    assert SlotAt(s, id);
  }

  /** In every reachable state, 'X' goes out to exactly the listed slots whose send succeeds and whose process lives. */
  lemma DrainRequestsSent(es: seq<Event>, e: Event, id: nat)
    requires DrainEvent(e) && id in Exec(INIT, es).slots
    ensures var s, t := Exec(INIT, es), Step(Exec(INIT, es), e);
            && id in t.slots
            && (if id in DrainList(s, e) && id in e.sends && !s.slots[id].pc.Exited?
                then t.slots[id].down == [Drain] else t.slots[id] == s.slots[id])
  {
    ReachableInv(es);
    DrainStepSends(Exec(INIT, es), e, id);
  }

  // ---------------------------------------------------------------------------
  // The token: what an in-flight slot is doing
  // ---------------------------------------------------------------------------

  function B(b: bool): nat { if b then 1 else 0 }

  /** How many reasons a slot has to be in flight. */
  function Tokens(s: Sys, id: nat): nat
    requires id in s.slots
  {
    var sl := s.slots[id];
    B(sl.pc.Starting?) + B(id in s.sending) + B(sl.down != [] && sl.down[0].FdMsg?) + B(sl.pc.Serving?) + B(R in sl.up)
  }

  /** A send to this slot failed at some point of the run. */
  ghost predicate SendFailed(es: seq<Event>, id: nat) {
    exists i: nat, fd :: FailsAt(es, id, i, fd)
  }

  /**
    A live slot is in flight for exactly one reason, unless a send to it failed: then
    it has none, and it stays in flight all the same. A ready slot has none and both
    its channels are empty.
  */
  lemma TokenExact(es: seq<Event>, id: nat)
    requires var s := Exec(INIT, es);
             id in s.slots && !s.slots[id].pc.Exited?
    ensures var s := Exec(INIT, es);
            && (PlaceOf(s.pools, id) == InFlight ==> Tokens(s, id) == if SendFailed(es, id) then 0 else 1)
            && (PlaceOf(s.pools, id) == Ready ==> SlotIdle(s.slots[id]) && Tokens(s, id) == 0)
            && (PlaceOf(s.pools, id) == Draining ==> s.slots[id].pc.Waiting? && Tokens(s, id) == 0)
  {
    ReachableInv(es);
    assert SlotAt(Exec(INIT, es), id);
    StuckIsFailedSend(es, id);
  }

  predicate HandoffEvent(e: Event) { e.Arrive? || e.Resume? || e.SendFail? || e.GiveUp? || e.Tick? }

  lemma HandoffSlots(s: Sys, e: Event)
    requires HandoffEvent(e)
    ensures Step(s, e).slots == s.slots && Step(s, e).watch == s.watch
  {
    match e
    case Arrive(fd) => DispatchFrame(s, fd);
    case Resume(fd) => DispatchFrame(s.(woken := s.woken - {fd}), fd);
    case GiveUp(fd) => NotifyFrame(s.(fates := s.fates[fd := Dropped], woken := s.woken - {fd}));
    case _ =>
  }

  lemma DispatchFrame(s: Sys, fd: Fd)
    ensures TryDispatch(s, fd).slots == s.slots && TryDispatch(s, fd).watch == s.watch
  {
  }

  lemma NotifyFrame(s: Sys)
    ensures var t := NotifyOne(s);
            && t.slots == s.slots && t.watch == s.watch && t.now == s.now && t.pools == s.pools
            && t.stuck == s.stuck && t.sending == s.sending
  {
  }

  /** Only a send or a drain puts anything into a slot's channel. */
  lemma OnlySendsGrow(s: Sys, e: Event, id: nat)
    requires id in s.slots && !e.SendOk? && !e.Reap? && !e.Sighup?
    ensures id in Step(s, e).slots && |Step(s, e).slots[id].down| <= |s.slots[id].down|
  {
    if HandoffEvent(e) {
      HandoffSlots(s, e);
    } else if e.ReaderRecv? && Enabled(s, e) {
      ReaderRecvSlots(s, e.id, id);
    }
  }

  lemma ReaderRecvSlots(s: Sys, k: nat, id: nat)
    requires id in s.slots && Enabled(s, ReaderRecv(k))
    ensures var t := Step(s, ReaderRecv(k));
            id in t.slots && t.slots[id].down == s.slots[id].down && t.slots[id].pc == s.slots[id].pc
  {
    var sl := s.slots[k].(up := s.slots[k].up[1..]);
    if s.slots[k].up[0] == A {
      assert Step(s, ReaderRecv(k)).slots == s.slots[k := sl][k := sl.(reader := false, closed := true)];
    } else {
      assert Step(s, ReaderRecv(k)).slots == s.slots[k := sl];
    }
  }

  lemma GrowthMeetsIdle(s: Sys, e: Event, id: nat)
    requires Inv(s) && id in s.slots && id in Step(s, e).slots && |Step(s, e).slots[id].down| > |s.slots[id].down|
    ensures SlotIdle(s.slots[id])
    ensures var t := Step(s, e);
            || t.slots[id].down == [Drain]
            || (e.SendOk? && t.slots[id].down == [FdMsg(e.fd)] && Has(s.fates, e.fd, Sending(id)))
  {
    if e.SendOk? {
      SentToIdle(s, e.fd, id);
    } else if DrainEvent(e) {
      DrainStepAt(s, e, id);
    } else {
      OnlySendsGrow(s, e, id);
    }
  }

  /** No client is ever handed, and no drain request ever sent, to a slot that is not idle. */
  lemma MessageMeetsIdleSlot(es: seq<Event>, e: Event, id: nat)
    requires var s := Exec(INIT, es);
             id in s.slots && id in Step(s, e).slots && |Step(s, e).slots[id].down| > |s.slots[id].down|
    ensures var s, t := Exec(INIT, es), Step(Exec(INIT, es), e);
            && SlotIdle(s.slots[id])
            && (|| t.slots[id].down == [Drain]
                || (e.SendOk? && t.slots[id].down == [FdMsg(e.fd)] && Has(s.fates, e.fd, Sending(id))))
  {
    ReachableInv(es);
    GrowthMeetsIdle(Exec(INIT, es), e, id);
  }

  lemma SentToIdle(s: Sys, fd: Fd, id: nat)
    requires Inv(s) && id in s.slots && |Step(s, SendOk(fd)).slots[id].down| > |s.slots[id].down|
    ensures SlotIdle(s.slots[id]) && Has(s.fates, fd, Sending(id))
    ensures Step(s, SendOk(fd)).slots[id].down == [FdMsg(fd)]
  {
    assert FdAt(s, fd) && SlotAt(s, id);
  }

  /** The ready byte always finds its slot in flight: the branch that ignores it is never taken. */
  lemma ReadyByteFindsInFlight(es: seq<Event>, id: nat)
    requires var s := Exec(INIT, es);
             Enabled(s, ReaderRecv(id)) && s.slots[id].up[0] == R
    ensures var s := Exec(INIT, es);
            && PlaceOf(s.pools, id) == InFlight && PlaceOf(Step(s, ReaderRecv(id)).pools, id) == Ready
            && (s.slots[id].pc.Exited? || SlotIdle(Step(s, ReaderRecv(id)).slots[id]))
  {
    var s := Exec(INIT, es);
    ReachableInv(es);
    ReadyFound(s, id);
  }

  lemma ReadyFound(s: Sys, id: nat)
    requires Inv(s) && Enabled(s, ReaderRecv(id)) && s.slots[id].up[0] == R
    ensures PlaceOf(s.pools, id) == InFlight && PlaceOf(Step(s, ReaderRecv(id)).pools, id) == Ready
    ensures s.slots[id].pc.Exited? || SlotIdle(Step(s, ReaderRecv(id)).slots[id])
  {
    assert SlotAt(s, id);
    ReadyIsNotify(s, id);
    OnReadyPlaces(s.pools, id, s.now);
  }

  predicate FailsAt(es: seq<Event>, id: nat, i: nat, fd: Fd) {
    i < |es| && es[i] == SendFail(fd) && Has(Exec(INIT, es[..i]).fates, fd, Sending(id))
  }

  lemma FailsAtSnoc(es: seq<Event>, id: nat, i: nat, fd: Fd)
    requires i < |es| - 1
    ensures FailsAt(es, id, i, fd) <==> FailsAt(es[..|es| - 1], id, i, fd)
  {
    assert es[..|es| - 1][..i] == es[..i];
  }

  lemma SendFailedSnoc(es: seq<Event>, id: nat)
    requires es != []
    ensures var n := |es| - 1;
            SendFailed(es, id) <==> SendFailed(es[..n], id) || (es[n].SendFail? && FailsAt(es, id, n, es[n].fd))
  {
    var n := |es| - 1;
    if SendFailed(es, id) {
      var i: nat, fd :| FailsAt(es, id, i, fd);
      if i < n { FailsAtSnoc(es, id, i, fd); }
    }
    if SendFailed(es[..n], id) {
      var i: nat, fd :| FailsAt(es[..n], id, i, fd);
      FailsAtSnoc(es, id, i, fd);
    }
  }

  /** The record of stuck slots is exactly the record of failed sends. */
  lemma {:induction false} StuckIsFailedSend(es: seq<Event>, id: nat)
    ensures id in Exec(INIT, es).stuck <==> SendFailed(es, id)
  {
    if es != [] {
      var n := |es| - 1;
      StuckIsFailedSend(es[..n], id);
      SendFailedSnoc(es, id);
      StuckStep(Exec(INIT, es[..n]), es[n]);
    }
  }

  lemma StuckStep(s: Sys, e: Event)
    ensures Step(s, e).stuck == if e.SendFail? && Enabled(s, e) then s.stuck + {s.fates[e.fd].slot} else s.stuck
  {
    if DrainEvent(e) {
      DrainStepPools(s, e);
    } else if e.ReaderRecv? {
      ReaderRecvFrame(s, e.id);
    }
  }

  lemma ReaderRecvFrame(s: Sys, id: nat)
    ensures var t := Step(s, ReaderRecv(id));
            t.stuck == s.stuck && t.watch == s.watch && t.now == s.now
  {
    if Enabled(s, ReaderRecv(id)) && s.slots[id].up[0] == R {
      var sl := s.slots[id].(up := s.slots[id].up[1..]);
      var u := s.(slots := s.slots[id := sl], pools := OnReady(s.pools, id, s.now));
      NotifyFrame(u);
      assert Step(s, ReaderRecv(id)) == if id in s.pools.inFlight then NotifyOne(u) else u;
    }
  }

  const FAILED_SEND: seq<Event> := [AcceptSlot, SlotReady(0), ReaderRecv(0), Arrive(7), SendFail(7)]

  /** It does happen: a live, idle slot, in flight for no reason, after one connection's send failed. */
  lemma FailedSendLeaksSlot()
    ensures var s := Exec(INIT, FAILED_SEND);
            0 in s.slots && SlotIdle(s.slots[0]) && PlaceOf(s.pools, 0) == InFlight && Tokens(s, 0) == 0
  {
    var idle := Slot(Waiting, [], [], true, false);
    var s := Sys(Pools([Peer(0, 0)], map[], map[], 1), map[0 := idle], map[], [], {}, true, map[], map[], 0, {});
    BootsToReady(s, idle);
    assert FAILED_SEND[..3] == BOOT && FAILED_SEND[..4][..3] == BOOT;
    assert Exec(INIT, FAILED_SEND[..4]) == Step(s, Arrive(7));
    assert Exec(INIT, FAILED_SEND) == Step(Step(s, Arrive(7)), SendFail(7));
  }

  const BOOT: seq<Event> := [AcceptSlot, SlotReady(0), ReaderRecv(0)]

  lemma BootsToReady(s: Sys, idle: Slot)
    requires idle == Slot(Waiting, [], [], true, false)
    requires s == Sys(Pools([Peer(0, 0)], map[], map[], 1), map[0 := idle], map[], [], {}, true, map[], map[], 0, {})
    ensures Exec(INIT, BOOT) == s
  {
    var one := Step(INIT, AcceptSlot);
    var two := Step(one, SlotReady(0));
    assert BOOT[..1][..0] == [] && BOOT[..2][..1] == BOOT[..1];
    assert Exec(INIT, BOOT[..1]) == one;
    assert Exec(INIT, BOOT[..2]) == two;
    assert two.slots[0].up == [R] && two.slots[0].up[1..] == [];
    assert Step(two, ReaderRecv(0)).pools == s.pools;
  }

  /** After a failed send its slot is never ready again: it stays in flight until its reader ends. */
  lemma StuckForGood(es: seq<Event>, more: seq<Event>, id: nat)
    requires SendFailed(es, id)
    ensures PlaceOf(Exec(Exec(INIT, es), more).pools, id) in {InFlight, Gone}
  {
    StuckIsFailedSend(es, id);
    ReachableInv(es);
    StuckStays(Exec(INIT, es), more, id);
    RunKeeps(Exec(INIT, es), more);
    StuckPlace(Exec(Exec(INIT, es), more), id);
  }

  lemma StuckPlace(s: Sys, id: nat)
    requires Inv(s) && id in s.stuck
    ensures PlaceOf(s.pools, id) in {InFlight, Gone}
  {
    assert SlotAt(s, id);
  }

  lemma {:induction false} StuckStays(s: Sys, more: seq<Event>, id: nat)
    requires id in s.stuck
    ensures id in Exec(s, more).stuck
  {
    if more != [] {
      var n := |more| - 1;
      StuckStays(s, more[..n], id);
      StuckStep(Exec(s, more[..n]), more[n]);
    }
  }

  // ---------------------------------------------------------------------------
  // Wakeups
  // ---------------------------------------------------------------------------

  /**
    While a handoff sleeps un-notified there are no more ready slots than notified
    handoffs on their way. So when those have run, nobody sleeps beside a ready slot.
  */
  lemma NoLostWakeup(es: seq<Event>)
    ensures var s := Exec(INIT, es);
            && (s.waiters != [] ==> |s.pools.ready| <= |s.woken| && !s.permit)
            && (s.woken == {} ==> s.waiters == [] || s.pools.ready == [])
  {
    ReachableInv(es);
  }

  function Resumes(ws: seq<Fd>): (es: seq<Event>)
    ensures |es| == |ws|
  {
    seq(|ws|, i requires 0 <= i < |ws| => Resume(ws[i]))
  }

  lemma {:induction false} WokenAfter(s: Sys, ws: seq<Fd>)
    ensures forall f :: f in Exec(s, Resumes(ws)).woken ==> f in s.woken && f !in ws
  {
    if ws != [] {
      var n := |ws| - 1;
      assert Resumes(ws)[..n] == Resumes(ws[..n]);
      WokenAfter(s, ws[..n]);
      assert ws == ws[..n] + [ws[n]];
    }
  }

  /** Once the notified handoffs have run, in whatever order, nobody sleeps beside a ready slot. */
  lemma EveryoneSettles(es: seq<Event>, ws: seq<Fd>)
    requires forall f :: f in Exec(INIT, es).woken ==> f in ws
    ensures var t := Exec(Exec(INIT, es), Resumes(ws));
            t.woken == {} && (t.waiters == [] || t.pools.ready == [])
  {
    ReachableInv(es);
    WokenAfter(Exec(INIT, es), ws);
    RunKeeps(Exec(INIT, es), Resumes(ws));
  }
}
