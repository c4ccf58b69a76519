/**
  What the protocol is able to do: from every reachable state a client can be served,
  a waiting one is served first come first served, a drain can complete, and a reap
  takes exactly the slots that have been idle for too long.
*/
module ProtocolProgress {
  import opened PoolState
  import opened Protocol
  import opened ProtocolClients
  import opened ProtocolInv
  import opened ProtocolLifecycle
  import opened ProtocolTheorems

  // ---------------------------------------------------------------------------
  // One client, from arrival to the slot's next readiness
  // ---------------------------------------------------------------------------

  lemma Dispatched(s: Sys, fd: Fd)
    requires Inv(s) && fd !in s.fates && s.pools.ready != []
    ensures var t, id := Step(s, Arrive(fd)), s.pools.ready[0].id;
            && Inv(t) && Has(t.fates, fd, Sending(id)) && id in t.slots && t.slots == s.slots
            && PlaceOf(t.pools, id) == InFlight
  {
    StepKeeps(s, Arrive(fd));
    PopReadyPlaces(s.pools);
    assert PlaceOf(s.pools, s.pools.ready[0].id) == Ready;
  }

  lemma Sent(s: Sys, fd: Fd, id: nat)
    requires Inv(s) && Has(s.fates, fd, Sending(id)) && id in s.slots
    requires PlaceOf(s.pools, id) == InFlight && !s.slots[id].pc.Exited?
    ensures var t := Step(s, SendOk(fd));
            && Inv(t) && Has(t.fates, fd, Queued(id)) && id in t.slots && t.pools == s.pools
            && t.slots[id] == s.slots[id].(down := [FdMsg(fd)]) && t.slots[id].pc.Waiting? && t.slots[id].reader
  {
    assert SlotAt(s, id) && FdAt(s, fd);
    StepKeeps(s, SendOk(fd));
    SentAt(s, fd, id);
    assert Step(s, SendOk(fd)).slots[id].down == [FdMsg(fd)];
  }

  lemma Served(s: Sys, fd: Fd, id: nat)
    requires Inv(s) && id in s.slots && s.slots[id].pc.Waiting? && s.slots[id].down == [FdMsg(fd)]
    ensures var t := Step(s, SlotRecv(id, true));
            && Inv(t) && Has(t.fates, fd, InSession(id)) && t.pools == s.pools
            && id in t.slots && t.slots[id].pc == Serving(fd) && t.slots[id].reader == s.slots[id].reader
  {
    StepKeeps(s, SlotRecv(id, true));
  }

  lemma Ended(s: Sys, fd: Fd, id: nat)
    requires Inv(s) && id in s.slots && s.slots[id].pc == Serving(fd) && s.slots[id].reader
    ensures var t := Step(s, SlotEnd(id));
            && Inv(t) && Has(t.fates, fd, Finished) && t.pools == s.pools && t.now == s.now
            && id in t.slots && t.slots[id] == Slot(Starting, [], [], true, s.slots[id].closed)
  {
    assert SlotAt(s, id);
    StepKeeps(s, SlotEnd(id));
  }

  lemma Announces(s: Sys, id: nat)
    requires Inv(s) && id in s.slots && s.slots[id].pc.Starting? && s.slots[id].up == [] && s.slots[id].reader
    ensures var t := Step(s, SlotReady(id));
            && Inv(t) && t.pools == s.pools && t.fates == s.fates && t.now == s.now
            && id in t.slots && t.slots[id].pc.Waiting? && t.slots[id].up == [R] && t.slots[id].reader
  {
    StepKeeps(s, SlotReady(id));
  }

  lemma Announced(s: Sys, fd: Fd, id: nat)
    requires Inv(s) && Has(s.fates, fd, Finished)
    requires id in s.slots && s.slots[id].pc.Waiting? && s.slots[id].up == [R] && s.slots[id].reader
    ensures var t := Step(s, ReaderRecv(id));
            && Has(t.fates, fd, Finished) && PlaceOf(t.pools, id) == Ready
            && t.pools.ready == s.pools.ready + [Peer(id, s.now)]
  {
    ReadyFound(s, id);
    FateMoves(s, ReaderRecv(id), fd);
    ReadyIsNotify(s, id);
    OnReadyPlaces(s.pools, id, s.now);
    NotifyFrame(MadeReady(s, id));
  }

  lemma ServesNext(s: Sys, fd: Fd, id: nat)
    requires Inv(s) && fd !in s.fates && s.pools.ready != [] && s.pools.ready[0].id == id
    requires id in s.slots && !s.slots[id].pc.Exited?
    ensures var a := Step(s, Arrive(fd));
            var b := Step(a, SendOk(fd));
            var c := Step(b, SlotRecv(id, true));
            && Has(a.fates, fd, Sending(id)) && Has(b.fates, fd, Queued(id)) && Has(c.fates, fd, InSession(id))
            && id in c.slots && c.slots[id].pc == Serving(fd) && c.slots[id].reader
  {
    Dispatched(s, fd);
    var a := Step(s, Arrive(fd));
    Sent(a, fd, id);
    Served(Step(a, SendOk(fd)), fd, id);
  }

  /** From every reachable state with a live slot first in the ready order, a new client is sent to it and served. */
  lemma ClientServed(es: seq<Event>, fd: Fd)
    requires var s := Exec(INIT, es);
             && fd !in s.fates && s.pools.ready != []
             && s.pools.ready[0].id in s.slots && !s.slots[s.pools.ready[0].id].pc.Exited?
    ensures var s := Exec(INIT, es);
            var id := s.pools.ready[0].id;
            var a := Step(s, Arrive(fd));
            var b := Step(a, SendOk(fd));
            var c := Step(b, SlotRecv(id, true));
            && Has(a.fates, fd, Sending(id)) && Has(b.fates, fd, Queued(id)) && Has(c.fates, fd, InSession(id))
            && id in c.slots && c.slots[id].pc == Serving(fd) && c.slots[id].reader
  {
    ReachableInv(es);
    ServesNext(Exec(INIT, es), fd, Exec(INIT, es).pools.ready[0].id);
  }

  lemma EndsSession(s: Sys, fd: Fd, id: nat)
    requires Inv(s) && id in s.slots && s.slots[id].pc == Serving(fd) && s.slots[id].reader
    ensures var t := Step(Step(Step(s, SlotEnd(id)), SlotReady(id)), ReaderRecv(id));
            && Has(t.fates, fd, Finished) && PlaceOf(t.pools, id) == Ready
            && t.pools.ready == s.pools.ready + [Peer(id, s.now)]
  {
    Ended(s, fd, id);
    Announces(Step(s, SlotEnd(id)), id);
    Announced(Step(Step(s, SlotEnd(id)), SlotReady(id)), fd, id);
  }

  /**
    And from every reachable state with a session running on a slot whose reader lives:
    the session ends, the client is finished, and the slot is ready again, last in the
    order.
  */
  lemma SessionEnds(es: seq<Event>, fd: Fd, id: nat)
    requires var s := Exec(INIT, es);
             id in s.slots && s.slots[id].pc == Serving(fd) && s.slots[id].reader
    ensures var s := Exec(INIT, es);
            var t := Step(Step(Step(s, SlotEnd(id)), SlotReady(id)), ReaderRecv(id));
            && Has(t.fates, fd, Finished) && PlaceOf(t.pools, id) == Ready
            && t.pools.ready == s.pools.ready + [Peer(id, s.now)]
  {
    ReachableInv(es);
    EndsSession(Exec(INIT, es), fd, id);
  }

  // ---------------------------------------------------------------------------
  // First come, first served
  // ---------------------------------------------------------------------------

  lemma ReadyWakesFirst(s: Sys, id: nat)
    requires Inv(s) && Enabled(s, ReaderRecv(id)) && s.slots[id].up[0] == R && s.waiters != []
    ensures var t := Step(s, ReaderRecv(id));
            && Has(t.fates, s.waiters[0], Woken) && t.waiters == s.waiters[1..] && s.waiters[0] in t.woken
            && t.pools.ready == s.pools.ready + [Peer(id, s.now)]
  {
    assert SlotAt(s, id);
    ReadyIsNotify(s, id);
    OnReadyPlaces(s.pools, id, s.now);
  }

  lemma ResumeTakesFirst(s: Sys, fd: Fd)
    requires fd in s.woken && s.pools.ready != []
    ensures Has(Step(s, Resume(fd)).fates, fd, Sending(s.pools.ready[0].id))
  {
  }

  /** A ready announcement wakes the handoff that has waited longest, and it gets that slot if no other is ready. */
  lemma LongestWaiterServed(es: seq<Event>, id: nat)
    requires var s := Exec(INIT, es);
             Enabled(s, ReaderRecv(id)) && s.slots[id].up[0] == R && s.waiters != [] && s.pools.ready == []
    ensures var s := Exec(INIT, es);
            var t := Step(s, ReaderRecv(id));
            && Has(t.fates, s.waiters[0], Woken) && t.waiters == s.waiters[1..]
            && Has(Step(t, Resume(s.waiters[0])).fates, s.waiters[0], Sending(id))
  {
    var s := Exec(INIT, es);
    ReachableInv(es);
    ReadyWakesFirst(s, id);
    ResumeTakesFirst(Step(s, ReaderRecv(id)), s.waiters[0]);
  }

  predicate Ahead(ws: seq<Fd>, f: Fd, g: Fd) {
    exists i, j :: 0 <= i < j < |ws| && ws[i] == f && ws[j] == g
  }

  /** What one step can do to the queue: nothing, wake its head, add one at its end, or drop one from it. */
  lemma QueueMoves(s: Sys, e: Event)
    requires Inv(s)
    ensures var ws, t := s.waiters, Step(s, e);
            || t.waiters == ws
            || (ws != [] && t.waiters == ws[1..])
            || ((e.Arrive? || e.Resume?) && t.waiters == ws + [e.fd])
            || (e.GiveUp? && t.waiters == DropWaiter(ws, e.fd))
  {
    if e.ReaderRecv? {
      ReaderRecvQueue(s, e.id);
    } else if e.GiveUp? {
      GiveUpQueue(s, e.fd);
    } else if !e.Arrive? && !e.Resume? {
      QueueStands(s, e);
    }
  }

  lemma QueueStands(s: Sys, e: Event)
    requires !e.ReaderRecv? && !e.GiveUp? && !e.Arrive? && !e.Resume?
    ensures Step(s, e).waiters == s.waiters
  {
    if DrainEvent(e) {
      DrainStepPools(s, e);
    }
  }

  lemma ReaderRecvQueue(s: Sys, id: nat)
    requires Inv(s)
    ensures var t := Step(s, ReaderRecv(id));
            t.waiters == s.waiters || (s.waiters != [] && t.waiters == s.waiters[1..])
  {
    if Enabled(s, ReaderRecv(id)) && s.slots[id].up[0] == R {
      assert SlotAt(s, id);
      ReadyIsNotify(s, id);
    }
  }

  lemma GiveUpQueue(s: Sys, fd: Fd)
    ensures var t := Step(s, GiveUp(fd));
            || t.waiters == s.waiters
            || (s.waiters != [] && t.waiters == s.waiters[1..])
            || t.waiters == DropWaiter(s.waiters, fd)
  {
  }

  lemma {:induction false} DropKeepsOrder(ws: seq<Fd>, fd: Fd, f: Fd, g: Fd)
    requires DistinctFds(ws) && Ahead(ws, f, g) && f != fd && g != fd
    ensures Ahead(DropWaiter(ws, fd), f, g)
  {
    var i, j :| 0 <= i < j < |ws| && ws[i] == f && ws[j] == g;
    var rest := DropWaiter(ws, fd);
    DropWaiterIs(ws, fd);
    if ws[0] == fd {
      assert rest[i - 1] == f && rest[j - 1] == g;
    } else if i == 0 {
      assert g in rest;
      var k :| 0 <= k < |rest| && rest[k] == g;
      assert rest[0] == f && ws[0] != ws[j];
    } else {
      assert ws[1..][i - 1] == f && ws[1..][j - 1] == g;
      DropKeepsOrder(ws[1..], fd, f, g);
      var tail := DropWaiter(ws[1..], fd);
      var a, b :| 0 <= a < b < |tail| && tail[a] == f && tail[b] == g;
      assert rest[a + 1] == f && rest[b + 1] == g;
    }
  }

  /**
    Handoffs are woken in order of arrival: whoever sleeps ahead of another keeps
    sleeping ahead of it or leaves the queue first, whoever joins does so behind all,
    and only the head is ever woken.
  */
  lemma FirstComeFirstServed(es: seq<Event>, e: Event, f: Fd, g: Fd)
    requires g in Step(Exec(INIT, es), e).waiters && f in Exec(INIT, es).waiters && f != g
    requires Ahead(Exec(INIT, es).waiters, f, g) || g !in Exec(INIT, es).waiters
    ensures var t := Step(Exec(INIT, es), e);
            f in t.waiters ==> Ahead(t.waiters, f, g)
  {
    var s := Exec(INIT, es);
    var t := Step(s, e);
    ReachableInv(es);
    QueueMoves(s, e);
    if f in t.waiters {
      QueueKept(s.waiters, t.waiters, e, f, g);
    }
  }

  lemma QueueKept(ws: seq<Fd>, vs: seq<Fd>, e: Event, f: Fd, g: Fd)
    requires DistinctFds(ws) && f in vs && g in vs && f in ws && f != g && (Ahead(ws, f, g) || g !in ws)
    requires || vs == ws
             || (ws != [] && vs == ws[1..])
             || ((e.Arrive? || e.Resume?) && vs == ws + [e.fd])
             || (e.GiveUp? && vs == DropWaiter(ws, e.fd))
    ensures Ahead(vs, f, g)
  {
    if g !in ws {
      if e.GiveUp? && vs == DropWaiter(ws, e.fd) { DropWaiterIs(ws, e.fd); }
      var i :| 0 <= i < |ws| && ws[i] == f;
      assert vs == ws + [e.fd] && vs[i] == f && vs[|ws|] == g;
    } else {
      var i, j :| 0 <= i < j < |ws| && ws[i] == f && ws[j] == g;
      if ws != [] && vs == ws[1..] {
        HeadIsApart(ws);
        assert vs[i - 1] == f && vs[j - 1] == g;
      } else if e.GiveUp? && vs == DropWaiter(ws, e.fd) {
        DropWaiterIs(ws, e.fd);
        DropKeepsOrder(ws, e.fd, f, g);
      } else {
        assert vs[i] == f && vs[j] == g;
      }
    }
  }

  /** Only the head of the queue is woken. */
  lemma OnlyHeadWoken(es: seq<Event>, e: Event, f: Fd)
    requires f in Exec(INIT, es).waiters && Has(Step(Exec(INIT, es), e).fates, f, Woken)
    ensures f == Exec(INIT, es).waiters[0]
  {
    var s := Exec(INIT, es);
    ReachableInv(es);
    StepKeeps(s, e);
    QueueMoves(s, e);
    assert FdAt(Step(s, e), f) && Has(s.fates, f, Asleep);
    if e.GiveUp? { DropWaiterIs(s.waiters, e.fd); }
  }

  /** Who gives up is out of the queue for good, and hands a wakeup it had been given on to the next in line. */
  lemma WakeupPassedOn(es: seq<Event>, fd: Fd)
    requires Enabled(Exec(INIT, es), GiveUp(fd))
    ensures var s, t := Exec(INIT, es), Step(Exec(INIT, es), GiveUp(fd));
            && Has(t.fates, fd, Dropped) && fd !in t.waiters && fd !in t.woken
            && (Has(s.fates, fd, Woken) ==>
                  if s.waiters == [] then t.permit
                  else Has(t.fates, s.waiters[0], Woken) && t.waiters == s.waiters[1..])
  {
    var s := Exec(INIT, es);
    ReachableInv(es);
    assert s.waiters != [] ==> s.waiters[0] in s.waiters;
    OneHome(es + [GiveUp(fd)], fd, 0);
    assert (es + [GiveUp(fd)])[..|es|] == es;
  }

  // ---------------------------------------------------------------------------
  // Drains and ends of slots
  // ---------------------------------------------------------------------------

  lemma DrainTaken(s: Sys, id: nat, ackOk: bool)
    requires id in s.slots && s.slots[id] == Slot(Waiting, [Drain], [], true, false)
    ensures var t := Step(s, SlotRecv(id, ackOk));
            && t.pools == s.pools && t.fates == s.fates
            && t.slots == s.slots[id := Slot(Exited, [], if ackOk then [A] else [], true, false)]
  {
    assert s.slots[id].up + [A] == [A] && s.slots[id].down[1..] == [];
    assert Lose(s.fates, [Drain]) == Lose(s.fates, []);
  }

  lemma DrainObeyed(s: Sys, id: nat)
    requires Inv(s) && PlaceOf(s.pools, id) == Draining && id in s.slots
    requires s.slots[id] == Slot(Waiting, [Drain], [], true, false)
    ensures var t := Step(Step(s, SlotRecv(id, true)), ReaderRecv(id));
            && PlaceOf(t.pools, id) == Gone && t.fates == s.fates
            && id in t.slots && t.slots[id] == Slot(Exited, [], [], false, true)
  {
    var u := Step(s, SlotRecv(id, true));
    DrainTaken(s, id, true);
    StepKeeps(s, SlotRecv(id, true));
    AckStep(u, id);
    ReaderRecvPlaces(u, id, id);
  }

  lemma DrainingSlot(s: Sys, id: nat)
    requires Inv(s) && PlaceOf(s.pools, id) == Draining && id in s.slots
    requires s.slots[id].pc.Waiting? && s.slots[id].down == [Drain]
    ensures s.slots[id] == Slot(Waiting, [Drain], [], true, false)
  {
    assert SlotAt(s, id);
  }

  lemma OnlyListedDrain(s: Sys, e: Event, id: nat)
    requires WellFormed(s.pools) && DrainEvent(e)
    requires PlaceOf(s.pools, id) == Ready && PlaceOf(Step(s, e).pools, id) == Draining
    ensures id in DrainList(s, e)
  {
    DrainStepPools(s, e);
    DrainAllPlaces(s.pools, DrainList(s, e), id);
  }

  lemma DrainAsked(es: seq<Event>, e: Event, id: nat)
    requires var s := Exec(INIT, es);
             && DrainEvent(e) && id in e.sends && id in s.slots && !s.slots[id].pc.Exited?
             && PlaceOf(s.pools, id) == Ready && PlaceOf(Step(s, e).pools, id) == Draining
    ensures var t := Step(Exec(INIT, es), e);
            id in t.slots && t.slots[id].down == [Drain] && t.slots[id].pc.Waiting? && t.fates == Exec(INIT, es).fates
  {
    var s := Exec(INIT, es);
    ReachableInv(es);
    OnlyListedDrain(s, e, id);
    DrainRequestsSent(es, e, id);
    DrainEventAt(s, e, id);
    FatesStand(s, e);
  }

  /**
    A drain that the slot obeys, from any reachable state: the request reaches the idle
    slot, the slot acknowledges and exits, the frontend removes it, and no client
    notices.
  */
  lemma CooperativeDrain(es: seq<Event>, e: Event, id: nat)
    requires var s := Exec(INIT, es);
             && DrainEvent(e) && id in e.sends && id in s.slots && !s.slots[id].pc.Exited?
             && PlaceOf(s.pools, id) == Ready && PlaceOf(Step(s, e).pools, id) == Draining
    ensures var s := Exec(INIT, es);
            var t := Step(Step(Step(s, e), SlotRecv(id, true)), ReaderRecv(id));
            && PlaceOf(t.pools, id) == Gone && t.fates == s.fates
            && id in t.slots && t.slots[id] == Slot(Exited, [], [], false, true)
  {
    var s := Exec(INIT, es);
    DrainAsked(es, e, id);
    ReachableInv(es);
    StepKeeps(s, e);
    DrainingSlot(Step(s, e), id);
    DrainObeyed(Step(s, e), id);
  }

  /** A drained slot whose ack cannot be sent exits all the same, and is gone once its reader notices. */
  lemma DrainWithoutAck(es: seq<Event>, id: nat)
    requires var s := Exec(INIT, es);
             PlaceOf(s.pools, id) == Draining && id in s.slots && s.slots[id].pc.Waiting? && s.slots[id].down == [Drain]
    ensures var s := Exec(INIT, es);
            var t := Step(s, SlotRecv(id, false));
            && t.fates == s.fates && t.pools == s.pools && id in t.slots
            && t.slots[id] == Slot(Exited, [], [], true, false)
            && PlaceOf(Step(t, ReaderExit(id)).pools, id) == Gone
  {
    var s := Exec(INIT, es);
    ReachableInv(es);
    DrainingSlot(s, id);
    DrainTaken(s, id, false);
    StepKeeps(s, SlotRecv(id, false));
    ReaderExitPlaces(Step(s, SlotRecv(id, false)), id, id);
  }

  lemma DeathDrops(s: Sys, id: nat, f: Fd)
    requires id in s.slots && Shape(s.slots[id])
    requires s.slots[id].down == [FdMsg(f)] || s.slots[id].pc == Serving(f)
    ensures var t := Step(s, SlotDie(id));
            Has(t.fates, f, Dropped) && t.pools == s.pools && id in t.slots && t.slots[id].pc.Exited?
  {
    ExitFates(s, id, s.slots[id].up);
  }

  /** The death of a process drops the client it holds, queued or in session; no slot moves until its reader notices. */
  lemma DeathDropsClient(es: seq<Event>, id: nat, f: Fd)
    requires var s := Exec(INIT, es);
             Has(s.fates, f, Queued(id)) || Has(s.fates, f, InSession(id))
    ensures var s, t := Exec(INIT, es), Step(Exec(INIT, es), SlotDie(id));
            && Has(t.fates, f, Dropped) && t.pools == s.pools && id in t.slots && t.slots[id].pc.Exited?
  {
    var s := Exec(INIT, es);
    ReachableInv(es);
    assert FdAt(s, f) && SlotAt(s, id);
    DeathDrops(s, id, f);
  }

  /** When its reader ends, for whatever reason, a slot is gone and shut, and no other slot moves. */
  lemma ReaderEndCleans(es: seq<Event>, id: nat, other: nat)
    requires Enabled(Exec(INIT, es), ReaderExit(id))
    ensures var s, t := Exec(INIT, es), Step(Exec(INIT, es), ReaderExit(id));
            && PlaceOf(t.pools, other) == (if other == id then Gone else PlaceOf(s.pools, other))
            && id in t.slots && t.slots[id].closed && !t.slots[id].reader
            && t.fates == s.fates
  {
    ReachableInv(es);
    ReaderExitPlaces(Exec(INIT, es), id, other);
  }

  // ---------------------------------------------------------------------------
  // What a reap takes
  // ---------------------------------------------------------------------------

  lemma InPrefix(ready: seq<Peer>, c: nat, i: nat)
    requires DistinctIds(ready) && c <= |ready| && i < |ready|
    ensures ready[i].id in ReadyKeys(ready[..c]) <==> i < c
  {
    if i < c {
      assert ReadyKeys(ready[..c])[i] == ready[i].id;
    }
  }

  lemma InReapList(p: Pools, now: nat, floor: nat, i: nat)
    requires WellFormed(p) && Sorted(p.ready, now) && i < |p.ready|
    ensures p.ready[i].id in ReapList(p, now, floor) ==> Idle(p.ready[i], now)
    ensures floor == 0 && Idle(p.ready[i], now) ==> p.ready[i].id in ReapList(p, now, floor)
  {
    var c := Candidates(p.ready, now);
    CandidatesArePrefix(p.ready, now);
    InPrefix(p.ready, |c|, i);
    assert c[0..] == c;
    assert forall id :: id in ReapList(p, now, floor) ==> id in c;
  }

  /**
    A slot that has been ready for 60 seconds or less survives every reap, and without
    a floor every slot that has been ready for longer is drained.
  */
  lemma ReapTakesTheIdle(es: seq<Event>, floor: nat, sends: set<nat>, i: nat)
    requires i < |Exec(INIT, es).pools.ready|
    ensures var s, t := Exec(INIT, es), Step(Exec(INIT, es), Reap(floor, sends));
            var q := s.pools.ready[i];
            && (s.now - q.lastReadyAt <= 60_000 ==> PlaceOf(t.pools, q.id) == Ready)
            && (floor == 0 && s.now - q.lastReadyAt > 60_000 ==> PlaceOf(t.pools, q.id) == Draining)
  {
    var s := Exec(INIT, es);
    ReachablePools(es);
    var ids := ReapList(s.pools, s.now, floor);
    DrainStepPools(s, Reap(floor, sends));
    DrainAllPlaces(s.pools, ids, s.pools.ready[i].id);
    InReapList(s.pools, s.now, floor, i);
    assert s.pools.ready[i] in s.pools.ready;
  }
}
