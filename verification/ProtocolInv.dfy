/** Every step keeps the invariant. */
module ProtocolInv {
  import opened Wrappers
  import opened PoolState
  import opened Protocol

  // ---------------------------------------------------------------------------
  // Slots a step does not concern
  // ---------------------------------------------------------------------------

  function Holder(fate: Fate): Option<nat> {
    match fate
    case Sending(id) => Some(id)
    case Queued(id) => Some(id)
    case InSession(id) => Some(id)
    case _ => None
  }

  /** The step leaves a slot, its container, its send and its connection alone. */
  ghost predicate Unconcerned(s: Sys, t: Sys, id: nat) {
    && id in s.slots && id in t.slots && t.slots[id] == s.slots[id]
    && PlaceOf(t.pools, id) == PlaceOf(s.pools, id)
    && (id in t.sending <==> id in s.sending) && (id in s.sending ==> t.sending[id] == s.sending[id])
    && (id in t.stuck <==> id in s.stuck)
    && (forall f :: f in s.fates && Holder(s.fates[f]) == Some(id) ==> Has(t.fates, f, s.fates[f]))
  }

  lemma SlotKept(s: Sys, t: Sys, id: nat)
    requires Unconcerned(s, t, id) && SlotAt(s, id)
    ensures SlotAt(t, id)
  {
  }

  // ---------------------------------------------------------------------------
  // Notification and dispatch
  // ---------------------------------------------------------------------------

  lemma NotifyKeeps(s: Sys)
    requires SlotsOk(s) && FdsOk(s) && WakeOk(s, 1) && TimersOk(s)
    ensures Inv(NotifyOne(s))
  {
    var t := NotifyOne(s);
    if s.waiters != [] {
      var f := s.waiters[0];
      assert f in s.waiters && f !in s.woken;
      assert |t.woken| == |s.woken| + 1;
      NotifyFds(s);
    } else {
      forall g | g in t.fates ensures FdAt(t, g) { assert FdAt(s, g); }
    }
    forall id | id in t.slots ensures SlotAt(t, id) { SlotKept(s, t, id); }
  }

  lemma NotifyFds(s: Sys)
    requires FdsOk(s) && s.waiters != []
    ensures FdsOk(NotifyOne(s))
  {
    var t := NotifyOne(s);
    assert s.waiters == [s.waiters[0]] + t.waiters;
    forall g | g in t.waiters ensures Has(t.fates, g, Asleep) {
      assert g in s.waiters;
    }
    forall g | g in t.fates ensures FdAt(t, g) {
      assert s.waiters[0] in s.waiters && g in s.fates && FdAt(s, g);
    }
  }

  /** Dispatching a connection that is nowhere yet: newly arrived, or just woken. */
  lemma DispatchKeeps(s: Sys, fd: Fd)
    requires SlotsOk(s) && FdsOkBut(s, fd) && TimersOk(s)
    requires WakeOk(s, 1)
    ensures Inv(TryDispatch(s, fd))
  {
    if s.pools.ready == [] {
      SleepKeeps(s, fd);
    } else {
      PopKeeps(s, fd);
    }
  }

  /** All connections but one are where their fates say, and that one is held by nothing. */
  ghost predicate FdsOkBut(s: Sys, fd: Fd) {
    && (forall f :: f in s.fates && f != fd ==> FdAt(s, f))
    && DistinctFds(s.waiters)
    && (forall f :: f in s.waiters ==> f != fd && Has(s.fates, f, Asleep))
    && (forall f :: f in s.woken ==> f != fd && Has(s.fates, f, Woken))
    && (fd in s.fates ==> s.fates[fd].Woken?)
  }

  lemma SleepKeeps(s: Sys, fd: Fd)
    requires SlotsOk(s) && FdsOkBut(s, fd) && TimersOk(s) && s.pools.ready == []
    ensures Inv(TryDispatch(s, fd))
  {
    var t := TryDispatch(s, fd);
    forall f | f in t.fates ensures FdAt(t, f) {
      if f != fd { assert FdAt(s, f); } else { assert t.waiters[|s.waiters|] == fd; }
    }
    forall i, j | 0 <= i < j < |t.waiters| ensures t.waiters[i] != t.waiters[j] {
      assert t.waiters[i] in s.waiters;
    }
    forall id | id in t.slots ensures SlotAt(t, id) { SlotKept(s, t, id); }
  }

  lemma PopKeeps(s: Sys, fd: Fd)
    requires SlotsOk(s) && FdsOkBut(s, fd) && TimersOk(s) && s.pools.ready != []
    requires WakeOk(s, 1)
    ensures Inv(TryDispatch(s, fd))
  {
    PopSlots(s, fd);
    PopFds(s, fd);
    var t := TryDispatch(s, fd);
    assert forall i :: 0 <= i < |t.pools.ready| ==> t.pools.ready[i] == s.pools.ready[i + 1];
  }

  lemma PopSlots(s: Sys, fd: Fd)
    requires SlotsOk(s) && (fd in s.fates ==> s.fates[fd].Woken?) && s.pools.ready != []
    ensures SlotsOk(TryDispatch(s, fd))
  {
    var t := TryDispatch(s, fd);
    var k := s.pools.ready[0].id;
    PopReadyPlaces(s.pools);
    PopAt(s, fd);
    forall id | id in t.slots && id != k ensures SlotAt(t, id) {
      PopUnconcerned(s, fd, id);
      SlotKept(s, t, id);
    }
  }

  lemma PopUnconcerned(s: Sys, fd: Fd, id: nat)
    requires WellFormed(s.pools) && (fd in s.fates ==> s.fates[fd].Woken?) && s.pools.ready != []
    requires id in s.slots && id != s.pools.ready[0].id
    ensures Unconcerned(s, TryDispatch(s, fd), id)
  {
    PopReadyPlaces(s.pools);
  }

  lemma PopAt(s: Sys, fd: Fd)
    requires WellFormed(s.pools) && (fd in s.fates ==> s.fates[fd].Woken?) && s.pools.ready != []
    requires var k := s.pools.ready[0].id;
             k in s.slots && SlotAt(s, k)
    ensures SlotAt(TryDispatch(s, fd), s.pools.ready[0].id)
  {
    PopReadyPlaces(s.pools);
  }

  lemma PopFds(s: Sys, fd: Fd)
    requires SlotsOk(s) && FdsOkBut(s, fd) && s.pools.ready != []
    ensures FdsOk(TryDispatch(s, fd))
  {
    var t := TryDispatch(s, fd);
    var k := s.pools.ready[0].id;
    FrontIdle(s);
    assert t.fates == s.fates[fd := Sending(k)] && t.sending == s.sending[k := fd];
    forall f | f in t.fates && f != fd ensures FdAt(t, f) { assert FdAt(s, f); }
  }

  lemma FrontIdle(s: Sys)
    requires SlotsOk(s) && s.pools.ready != []
    ensures s.pools.ready[0].id !in s.sending
  {
    PopReadyPlaces(s.pools);
    assert SlotAt(s, s.pools.ready[0].id);
  }

  // ---------------------------------------------------------------------------
  // Handoff tasks
  // ---------------------------------------------------------------------------

  lemma ArriveKeeps(s: Sys, fd: Fd)
    requires Inv(s) && Enabled(s, Arrive(fd))
    ensures Inv(Step(s, Arrive(fd)))
  {
    DispatchKeeps(s, fd);
  }

  lemma ResumeKeeps(s: Sys, fd: Fd)
    requires Inv(s) && Enabled(s, Resume(fd))
    ensures Inv(Step(s, Resume(fd)))
  {
    var t := s.(woken := s.woken - {fd});
    assert |t.woken| == |s.woken| - 1;
    assert Has(s.fates, fd, Woken);
    forall id | id in t.slots ensures SlotAt(t, id) { SlotKept(s, t, id); }
    forall f | f in t.fates && f != fd ensures FdAt(t, f) { assert FdAt(s, f); }
    DispatchKeeps(t, fd);
  }

  lemma SendOkKeeps(s: Sys, fd: Fd)
    requires Inv(s) && Enabled(s, SendOk(fd))
    ensures Inv(Step(s, SendOk(fd)))
  {
    assert FdAt(s, fd) && SlotAt(s, s.fates[fd].slot);
    SendOkSlots(s, fd);
    SendOkFds(s, fd);
  }

  lemma SendOkSlots(s: Sys, fd: Fd)
    requires SlotsOk(s) && Enabled(s, SendOk(fd)) && FdAt(s, fd)
    ensures SlotsOk(Step(s, SendOk(fd)))
  {
    var t := Step(s, SendOk(fd));
    var k := s.fates[fd].slot;
    assert SlotAt(s, k);
    SentAt(s, fd, k);
    forall id | id in t.slots && id != k ensures SlotAt(t, id) {
      SendUnconcerned(s, SendOk(fd), id);
      SlotKept(s, t, id);
    }
  }

  lemma SentAt(s: Sys, fd: Fd, k: nat)
    requires Enabled(s, SendOk(fd)) && s.fates[fd] == Sending(k) && FdAt(s, fd) && SlotAt(s, k)
    ensures SlotIdle(s.slots[k]) && SlotAt(Step(s, SendOk(fd)), k)
  {
    assert Step(s, SendOk(fd)).slots[k].down == [FdMsg(fd)];
  }

  lemma SendOkFds(s: Sys, fd: Fd)
    requires FdsOk(s) && Enabled(s, SendOk(fd)) && FdAt(s, fd) && SlotAt(s, s.fates[fd].slot)
    ensures FdsOk(Step(s, SendOk(fd)))
  {
    var t := Step(s, SendOk(fd));
    var k := s.fates[fd].slot;
    assert s.slots[k].down == [] && t.slots[k].down == [FdMsg(fd)];
    forall f | f in t.fates && f != fd ensures FdAt(t, f) { assert FdAt(s, f); }
  }

  lemma SendFailKeeps(s: Sys, fd: Fd)
    requires Inv(s) && Enabled(s, SendFail(fd))
    ensures Inv(Step(s, SendFail(fd)))
  {
    assert FdAt(s, fd);
    SendFailSlots(s, fd);
    SendFailFds(s, fd);
  }

  lemma SendFailSlots(s: Sys, fd: Fd)
    requires SlotsOk(s) && Enabled(s, SendFail(fd)) && FdAt(s, fd)
    ensures SlotsOk(Step(s, SendFail(fd)))
  {
    var t := Step(s, SendFail(fd));
    var k := s.fates[fd].slot;
    assert SlotAt(s, k);
    FailedAt(s, fd, k);
    forall id | id in t.slots && id != k ensures SlotAt(t, id) {
      SendUnconcerned(s, SendFail(fd), id);
      SlotKept(s, t, id);
    }
  }

  /** A send, taken or refused, concerns its own slot only. */
  lemma SendUnconcerned(s: Sys, e: Event, id: nat)
    requires (e.SendOk? || e.SendFail?) && Enabled(s, e) && id in s.slots && id != s.fates[e.fd].slot
    ensures Unconcerned(s, Step(s, e), id)
  {
  }

  lemma FailedAt(s: Sys, fd: Fd, k: nat)
    requires Enabled(s, SendFail(fd)) && s.fates[fd] == Sending(k) && FdAt(s, fd) && k in s.slots && SlotAt(s, k)
    ensures SlotAt(Step(s, SendFail(fd)), k)
  {
  }

  lemma SendFailFds(s: Sys, fd: Fd)
    requires FdsOk(s) && Enabled(s, SendFail(fd)) && FdAt(s, fd)
    ensures FdsOk(Step(s, SendFail(fd)))
  {
    var t := Step(s, SendFail(fd));
    forall f | f in t.fates ensures FdAt(t, f) { assert FdAt(s, f); }
  }

  lemma {:induction false} DropWaiterIs(ws: seq<Fd>, fd: Fd)
    requires DistinctFds(ws)
    ensures DistinctFds(DropWaiter(ws, fd))
    ensures forall f :: f in DropWaiter(ws, fd) <==> f in ws && f != fd
  {
    if ws != [] {
      var rest := DropWaiter(ws[1..], fd);
      DropWaiterIs(ws[1..], fd);
      HeadIsApart(ws);
      if ws[0] != fd {
        assert DropWaiter(ws, fd) == [ws[0]] + rest;
        forall i, j | 0 <= i < j < |rest| + 1 ensures ([ws[0]] + rest)[i] != ([ws[0]] + rest)[j] {
          assert rest[j - 1] in rest;
        }
      }
    }
  }

  lemma HeadIsApart(ws: seq<Fd>)
    requires DistinctFds(ws) && ws != []
    ensures forall f :: f in ws <==> f == ws[0] || f in ws[1..]
    ensures ws[0] !in ws[1..]
  {
    assert ws == [ws[0]] + ws[1..];
  }

  lemma GiveUpKeeps(s: Sys, fd: Fd)
    requires Inv(s) && Enabled(s, GiveUp(fd))
    ensures Inv(Step(s, GiveUp(fd)))
  {
    if s.fates[fd].Asleep? {
      TimeoutKeeps(s, fd);
    } else {
      CancelKeeps(s, fd);
    }
  }

  lemma TimeoutKeeps(s: Sys, fd: Fd)
    requires Inv(s) && Enabled(s, GiveUp(fd)) && s.fates[fd].Asleep?
    ensures Inv(Step(s, GiveUp(fd)))
  {
    var t := Step(s, GiveUp(fd));
    assert t == s.(fates := s.fates[fd := Dropped], waiters := DropWaiter(s.waiters, fd));
    UnheldSlots(s, t, fd);
    TimeoutFds(s, t, fd);
    assert s.waiters == [] ==> DropWaiter(s.waiters, fd) == [];
  }

  lemma TimeoutFds(s: Sys, t: Sys, fd: Fd)
    requires FdsOk(s) && Has(s.fates, fd, Asleep)
    requires t == s.(fates := s.fates[fd := Dropped], waiters := DropWaiter(s.waiters, fd))
    ensures FdsOk(t)
  {
    DropWaiterIs(s.waiters, fd);
    forall f | f in t.fates ensures FdAt(t, f) { assert FdAt(s, f); }
  }

  /** A handoff dropped after it was notified passes the notification on. */
  lemma CancelKeeps(s: Sys, fd: Fd)
    requires Inv(s) && Enabled(s, GiveUp(fd)) && s.fates[fd].Woken?
    ensures Inv(Step(s, GiveUp(fd)))
  {
    var t := s.(fates := s.fates[fd := Dropped], woken := s.woken - {fd});
    assert FdAt(s, fd);
    assert |t.woken| == |s.woken| - 1;
    UnheldSlots(s, t, fd);
    forall f | f in t.fates ensures FdAt(t, f) { assert FdAt(s, f); }
    NotifyKeeps(t);
  }

  /** The slots do not see a waiting handoff go. */
  lemma UnheldSlots(s: Sys, t: Sys, fd: Fd)
    requires SlotsOk(s) && fd in s.fates && (s.fates[fd].Asleep? || s.fates[fd].Woken?)
    requires t.pools == s.pools && t.slots == s.slots && t.sending == s.sending && t.stuck == s.stuck
    requires t.fates == s.fates[fd := Dropped]
    ensures SlotsOk(t)
  {
    forall id | id in t.slots ensures SlotAt(t, id) { SlotKept(s, t, id); }
  }

  // ---------------------------------------------------------------------------
  // Slot processes
  // ---------------------------------------------------------------------------

  lemma AcceptKeeps(s: Sys)
    requires Inv(s)
    ensures Inv(Step(s, AcceptSlot))
  {
    var t := Step(s, AcceptSlot);
    AcceptSlots(s);
    forall f | f in t.fates ensures FdAt(t, f) { assert FdAt(s, f); }
  }

  lemma AcceptSlots(s: Sys)
    requires SlotsOk(s)
    ensures SlotsOk(Step(s, AcceptSlot))
  {
    var t := Step(s, AcceptSlot);
    var k := s.pools.counter;
    AcceptPlaces(s.pools, s.now);
    assert k !in s.slots && k !in s.sending && k !in s.stuck;
    forall id | id in t.slots && id != k ensures SlotAt(t, id) {
      SlotKept(s, t, id);
    }
    assert PlaceOf(t.pools, k) == InFlight && SlotAt(t, k);
  }

  lemma SlotReadyKeeps(s: Sys, k: nat)
    requires Inv(s) && Enabled(s, SlotReady(k))
    ensures Inv(Step(s, SlotReady(k)))
  {
    SlotReadySlots(s, k);
    assert SlotAt(s, k);
    FdsUnmoved(s, Step(s, SlotReady(k)), k, s.slots[k].(pc := Waiting, up := s.slots[k].up + [R]));
  }

  lemma SlotReadySlots(s: Sys, k: nat)
    requires SlotsOk(s) && Enabled(s, SlotReady(k))
    ensures SlotsOk(Step(s, SlotReady(k)))
  {
    var t := Step(s, SlotReady(k));
    assert SlotAt(s, k);
    assert SlotAt(t, k);
    forall id | id in t.slots && id != k ensures SlotAt(t, id) { SlotKept(s, t, id); }
  }

  lemma SlotEndKeeps(s: Sys, k: nat)
    requires Inv(s) && Enabled(s, SlotEnd(k))
    ensures Inv(Step(s, SlotEnd(k)))
  {
    assert SlotAt(s, k);
    SlotEndSlots(s, k);
    SlotEndFds(s, k);
  }

  lemma SlotEndSlots(s: Sys, k: nat)
    requires SlotsOk(s) && Enabled(s, SlotEnd(k))
    ensures SlotsOk(Step(s, SlotEnd(k)))
  {
    var t := Step(s, SlotEnd(k));
    assert SlotAt(s, k);
    assert SlotAt(t, k);
    forall id | id in t.slots && id != k ensures SlotAt(t, id) { SlotKept(s, t, id); }
  }

  lemma SlotEndFds(s: Sys, k: nat)
    requires FdsOk(s) && Enabled(s, SlotEnd(k)) && SlotAt(s, k)
    ensures FdsOk(Step(s, SlotEnd(k)))
  {
    var t := Step(s, SlotEnd(k));
    forall f | f in t.fates ensures FdAt(t, f) { assert FdAt(s, f); }
  }

  /** A slot may end at any point, with at most one connection to lose. */
  lemma ExitKeeps(s: Sys, k: nat, up: seq<Up>)
    requires Inv(s) && k in s.slots && !s.slots[k].pc.Exited?
    requires up == s.slots[k].up || AckDue(s.slots[k], up)
    ensures Inv(Exit(s, k, up))
  {
    assert SlotAt(s, k);
    ExitSlots(s, k, up);
    ExitFds(s, k, up);
  }

  predicate AckDue(sl: Slot, up: seq<Up>) {
    up == sl.up + [A] && sl.pc.Waiting? && sl.down != [] && sl.down[0] == Drain && sl.reader
  }

  lemma ExitFates(s: Sys, k: nat, up: seq<Up>)
    requires k in s.slots && Shape(s.slots[k]) && !s.slots[k].pc.Exited?
    ensures var sl := s.slots[k];
            Exit(s, k, up).fates == if sl.pc.Serving? then s.fates[sl.pc.fd := Dropped]
                                    else if sl.down != [] && sl.down[0].FdMsg? then s.fates[sl.down[0].fd := Dropped]
                                    else s.fates
    ensures SlotAt(s, k) ==>
              forall f :: f in s.fates && Holder(s.fates[f]) != Some(k) ==> Has(Exit(s, k, up).fates, f, s.fates[f])
  {
    var sl := s.slots[k];
    if sl.down != [] {
      assert sl.down[1..] == [];
      match sl.down[0] {
        case FdMsg(f) => assert Lose(s.fates, sl.down) == Lose(s.fates[f := Dropped], []);
        case Drain => assert Lose(s.fates, sl.down) == Lose(s.fates, []);
      }
    }
  }

  lemma ExitSlots(s: Sys, k: nat, up: seq<Up>)
    requires SlotsOk(s) && k in s.slots && !s.slots[k].pc.Exited?
    requires up == s.slots[k].up || AckDue(s.slots[k], up)
    ensures SlotsOk(Exit(s, k, up))
  {
    var t := Exit(s, k, up);
    assert SlotAt(s, k);
    ExitFates(s, k, up);
    ExitedAt(s, k, up);
    forall id | id in t.slots && id != k ensures SlotAt(t, id) { SlotKept(s, t, id); }
  }

  lemma ExitedAt(s: Sys, k: nat, up: seq<Up>)
    requires k in s.slots && SlotAt(s, k) && !s.slots[k].pc.Exited?
    requires up == s.slots[k].up || AckDue(s.slots[k], up)
    ensures SlotAt(Exit(s, k, up), k)
  {
    ExitFates(s, k, up);
  }

  lemma ExitFds(s: Sys, k: nat, up: seq<Up>)
    requires FdsOk(s) && k in s.slots && !s.slots[k].pc.Exited? && SlotAt(s, k)
    ensures FdsOk(Exit(s, k, up))
  {
    var t := Exit(s, k, up);
    ExitFates(s, k, up);
    forall f | f in t.fates ensures FdAt(t, f) { assert FdAt(s, f); }
  }

  lemma ServeSlots(s: Sys, k: nat, ackOk: bool, f: Fd)
    requires SlotsOk(s) && Enabled(s, SlotRecv(k, ackOk)) && s.slots[k].down[0] == FdMsg(f)
    ensures SlotsOk(Step(s, SlotRecv(k, ackOk)))
  {
    var t := Step(s, SlotRecv(k, ackOk));
    assert SlotAt(s, k);
    assert s.slots[k].down[1..] == [];
    assert SlotAt(t, k);
    forall id | id in t.slots && id != k ensures SlotAt(t, id) { SlotKept(s, t, id); }
  }

  lemma ServeFds(s: Sys, k: nat, ackOk: bool, f: Fd)
    requires FdsOk(s) && Enabled(s, SlotRecv(k, ackOk)) && SlotAt(s, k) && s.slots[k].down[0] == FdMsg(f)
    ensures FdsOk(Step(s, SlotRecv(k, ackOk)))
  {
    var t := Step(s, SlotRecv(k, ackOk));
    forall g | g in t.fates ensures FdAt(t, g) { assert FdAt(s, g); }
  }

  lemma SlotRecvKeeps(s: Sys, k: nat, ackOk: bool)
    requires Inv(s) && Enabled(s, SlotRecv(k, ackOk))
    ensures Inv(Step(s, SlotRecv(k, ackOk)))
  {
    var t := Step(s, SlotRecv(k, ackOk));
    assert SlotAt(s, k);
    match s.slots[k].down[0]
    case FdMsg(f) =>
      ServeSlots(s, k, ackOk, f);
      ServeFds(s, k, ackOk, f);
    case Drain =>
      ExitKeeps(s, k, if ackOk && s.slots[k].reader then s.slots[k].up + [A] else s.slots[k].up);
  }

  // ---------------------------------------------------------------------------
  // Reader tasks
  // ---------------------------------------------------------------------------

  /** What a reader or a watchdog does to a slot does not move any connection. */
  lemma FdsUnmoved(s: Sys, t: Sys, k: nat, sl: Slot)
    requires FdsOk(s) && k in s.slots
    requires t.fates == s.fates && t.waiters == s.waiters && t.woken == s.woken && t.sending == s.sending
    requires t.slots == s.slots[k := sl] && sl.down == s.slots[k].down
    requires sl.pc == s.slots[k].pc || !s.slots[k].pc.Serving?
    ensures FdsOk(t)
  {
    forall f | f in t.fates ensures FdAt(t, f) { assert FdAt(s, f); }
  }

  /** The two ways a reader's end shows in the containers: after an ack, or not. */
  predicate Left(p: Pools, k: nat, q: Pools) {
    q == Cleanup(p, k) || (PlaceOf(p, k) in {Draining, Gone} && q == Cleanup(OnDrainAck(p, k), k))
  }

  lemma LeftIs(p: Pools, k: nat, q: Pools, now: nat)
    requires WellFormed(p) && Sorted(p.ready, now) && Left(p, k, q)
    ensures WellFormed(q) && q.counter == p.counter && |q.ready| <= |p.ready| && Sorted(q.ready, now)
    ensures forall j :: PlaceOf(q, j) == if j == k then Gone else PlaceOf(p, j)
    ensures forall j :: j in q.draining ==> j in p.draining
  {
    DrainAckPlaces(p, k);
    CleanupPlaces(p, k);
    CleanupPlaces(OnDrainAck(p, k), k);
    WithoutSorted(p.ready, k, now);
  }

  /** When a reader ends, its slot leaves whatever container it was in, for good. */
  lemma ReaderGoneKeeps(s: Sys, t: Sys, k: nat, up: seq<Up>)
    requires Inv(s) && k in s.slots && s.slots[k].reader
    requires up == s.slots[k].up || (s.slots[k].up == [A] && up == [])
    requires Left(s.pools, k, t.pools)
    requires t == s.(pools := t.pools, slots := s.slots[k := s.slots[k].(reader := false, closed := true, up := up)])
    ensures Inv(t)
  {
    GoneSlots(s, t, k, up);
    FdsUnmoved(s, t, k, s.slots[k].(reader := false, closed := true, up := up));
    LeftTimers(s, t, k);
  }

  lemma LeftTimers(s: Sys, t: Sys, k: nat)
    requires Inv(s) && Left(s.pools, k, t.pools)
    requires t.now == s.now && t.watch == s.watch
    requires t.waiters == s.waiters && t.woken == s.woken && t.permit == s.permit
    ensures TimersOk(t) && WakeOk(t, 0)
  {
    LeftIs(s.pools, k, t.pools, s.now);
  }

  lemma GoneSlots(s: Sys, t: Sys, k: nat, up: seq<Up>)
    requires SlotsOk(s) && Sorted(s.pools.ready, s.now) && k in s.slots && s.slots[k].reader
    requires Left(s.pools, k, t.pools) && t.fates == s.fates && t.sending == s.sending && t.stuck == s.stuck
    requires t.slots == s.slots[k := s.slots[k].(reader := false, closed := true, up := up)]
    requires up == s.slots[k].up || (s.slots[k].up == [A] && up == [])
    ensures SlotsOk(t)
  {
    LeftIs(s.pools, k, t.pools, s.now);
    assert SlotAt(s, k);
    assert SlotAt(t, k);
    forall id | id in t.slots && id != k ensures SlotAt(t, id) {
      SlotKept(s, t, id);
    }
  }

  lemma ReaderRecvKeeps(s: Sys, k: nat)
    requires Inv(s) && Enabled(s, ReaderRecv(k))
    ensures Inv(Step(s, ReaderRecv(k)))
  {
    assert SlotAt(s, k);
    if s.slots[k].up[0] == A {
      AckStep(s, k);
      ReaderGoneKeeps(s, Step(s, ReaderRecv(k)), k, []);
    } else {
      BecomesReady(s, k);
    }
  }

  lemma AckStep(s: Sys, k: nat)
    requires Enabled(s, ReaderRecv(k)) && s.slots[k].up[0] == A && SlotAt(s, k)
    ensures s.slots[k].up == [A] && PlaceOf(s.pools, k) in {Draining, Gone}
    ensures Step(s, ReaderRecv(k)) == s.(pools := Cleanup(OnDrainAck(s.pools, k), k),
                                         slots := s.slots[k := s.slots[k].(reader := false, closed := true, up := [])])
  {
    assert s.slots[k].up[1..] == [];
    var sl := s.slots[k].(up := []);
    assert s.slots[k := sl][k := sl.(reader := false, closed := true)]
        == s.slots[k := s.slots[k].(reader := false, closed := true, up := [])];
  }

  function MadeReady(s: Sys, k: nat): Sys
    requires k in s.slots
  {
    s.(slots := s.slots[k := s.slots[k].(up := [])], pools := OnReady(s.pools, k, s.now))
  }

  /** The ready byte always finds its slot in flight. */
  lemma BecomesReady(s: Sys, k: nat)
    requires Inv(s) && k in s.slots && s.slots[k].reader && s.slots[k].up == [R]
    ensures PlaceOf(s.pools, k) == InFlight
    ensures Inv(Step(s, ReaderRecv(k)))
  {
    ReadyIsNotify(s, k);
    var u := MadeReady(s, k);
    ReadySlots(s, u, k);
    FdsUnmoved(s, u, k, s.slots[k].(up := []));
    ReadyTimers(s, u, k);
    NotifyKeeps(u);
  }

  lemma ReadyIsNotify(s: Sys, k: nat)
    requires SlotsOk(s) && k in s.slots && s.slots[k].reader && s.slots[k].up == [R]
    ensures k in s.pools.inFlight && PlaceOf(s.pools, k) == InFlight
    ensures Step(s, ReaderRecv(k)) == NotifyOne(MadeReady(s, k))
  {
    assert SlotAt(s, k);
    assert s.slots[k].up[1..] == [];
  }

  lemma ReadyTimers(s: Sys, u: Sys, k: nat)
    requires Inv(s) && PlaceOf(s.pools, k) == InFlight
    requires u.pools == OnReady(s.pools, k, s.now) && u.now == s.now && u.watch == s.watch
    requires u.waiters == s.waiters && u.woken == s.woken && u.permit == s.permit
    ensures TimersOk(u) && WakeOk(u, 1)
  {
    OnReadyPlaces(s.pools, k, s.now);
  }

  lemma ReadySlots(s: Sys, u: Sys, k: nat)
    requires SlotsOk(s) && k in s.slots && s.slots[k].reader && s.slots[k].up == [R]
    requires u == MadeReady(s, k)
    ensures SlotsOk(u)
  {
    OnReadyPlaces(s.pools, k, s.now);
    assert SlotAt(s, k);
    assert SlotAt(u, k);
    forall id | id in u.slots && id != k ensures SlotAt(u, id) {
      SlotKept(s, u, id);
    }
  }

  // ---------------------------------------------------------------------------
  // Draining and time
  // ---------------------------------------------------------------------------

  lemma DrainOneKeeps(s: Sys, k: nat, sendOk: bool)
    requires Inv(s)
    ensures Inv(DrainOne(s, k, sendOk))
  {
    if k in Ids(s.pools.ready) {
      DrainOneSlots(s, k, sendOk);
      DrainOneFds(s, k, sendOk);
      DrainOneTimers(s, k, sendOk);
    }
  }

  lemma DrainOneSlots(s: Sys, k: nat, sendOk: bool)
    requires SlotsOk(s) && k in Ids(s.pools.ready)
    ensures SlotsOk(DrainOne(s, k, sendOk))
  {
    var t := DrainOne(s, k, sendOk);
    ReadyFacts(s.pools, k);
    ToDrainingPlaces(s.pools, k);
    DrainedSlot(s, k, sendOk);
    forall id | id in t.slots && id != k ensures SlotAt(t, id) {
      SlotKept(s, t, id);
    }
  }

  lemma DrainedSlot(s: Sys, k: nat, sendOk: bool)
    requires WellFormed(s.pools) && k in Ids(s.pools.ready) && k in s.slots && SlotAt(s, k)
    ensures SlotAt(DrainOne(s, k, sendOk), k)
  {
    ToDrainingPlaces(s.pools, k);
  }

  lemma DrainOneFds(s: Sys, k: nat, sendOk: bool)
    requires SlotsOk(s) && FdsOk(s) && k in Ids(s.pools.ready)
    ensures FdsOk(DrainOne(s, k, sendOk))
  {
    var t := DrainOne(s, k, sendOk);
    ReadyFacts(s.pools, k);
    assert SlotAt(s, k);
    forall f | f in t.fates ensures FdAt(t, f) { assert FdAt(s, f); }
  }

  lemma DrainOneTimers(s: Sys, k: nat, sendOk: bool)
    requires WellFormed(s.pools) && TimersOk(s) && WakeOk(s, 0) && k in Ids(s.pools.ready)
    ensures TimersOk(DrainOne(s, k, sendOk)) && WakeOk(DrainOne(s, k, sendOk), 0)
  {
    ToDrainingPlaces(s.pools, k);
    WithoutSorted(s.pools.ready, k, s.now);
  }

  lemma {:induction false} DrainManyKeeps(s: Sys, ids: seq<nat>, sends: set<nat>)
    requires Inv(s)
    ensures Inv(DrainMany(s, ids, sends))
  {
    if ids != [] {
      DrainManyKeeps(s, ids[..|ids| - 1], sends);
      DrainOneKeeps(DrainMany(s, ids[..|ids| - 1], sends), ids[|ids| - 1], ids[|ids| - 1] in sends);
    }
  }

  lemma WatchdogKeeps(s: Sys, k: nat)
    requires Inv(s) && Enabled(s, Watchdog(k))
    ensures Inv(Step(s, Watchdog(k)))
  {
    WatchdogSlots(s, k);
    WatchdogTimers(s, k);
    WatchdogFds(s, k);
  }

  lemma WatchdogFds(s: Sys, k: nat)
    requires FdsOk(s) && Enabled(s, Watchdog(k))
    ensures FdsOk(Step(s, Watchdog(k)))
  {
    var t := Step(s, Watchdog(k));
    forall f | f in t.fates ensures FdAt(t, f) { assert FdAt(s, f); }
  }

  lemma WatchdogTimers(s: Sys, k: nat)
    requires SlotsOk(s) && TimersOk(s) && WakeOk(s, 0) && Enabled(s, Watchdog(k))
    ensures TimersOk(Step(s, Watchdog(k))) && WakeOk(Step(s, Watchdog(k)), 0)
  {
    assert k in s.pools.draining ==> PlaceOf(s.pools, k) == Draining && k in s.slots;
  }

  lemma WatchdogSlots(s: Sys, k: nat)
    requires SlotsOk(s) && Enabled(s, Watchdog(k))
    ensures SlotsOk(Step(s, Watchdog(k)))
  {
    var t := Step(s, Watchdog(k));
    DrainAckPlaces(s.pools, k);
    if k in s.slots {
      WatchedAt(s, k);
    }
    forall id | id in t.slots && id != k ensures SlotAt(t, id) {
      SlotKept(s, t, id);
    }
  }

  lemma WatchedAt(s: Sys, k: nat)
    requires WellFormed(s.pools) && Enabled(s, Watchdog(k)) && k in s.slots && SlotAt(s, k)
    ensures SlotAt(Step(s, Watchdog(k)), k)
  {
    DrainAckPlaces(s.pools, k);
  }

  lemma TickKeeps(s: Sys, ms: nat)
    requires Inv(s)
    ensures Inv(Step(s, Tick(ms)))
  {
    var t := Step(s, Tick(ms));
    forall id | id in t.slots ensures SlotAt(t, id) { SlotKept(s, t, id); }
    forall f | f in t.fates ensures FdAt(t, f) { assert FdAt(s, f); }
  }

  // ---------------------------------------------------------------------------
  // All steps, all runs
  // ---------------------------------------------------------------------------

  lemma StepKeeps(s: Sys, e: Event)
    requires Inv(s)
    ensures Inv(Step(s, e))
  {
    if Enabled(s, e) {
      match e
      case AcceptSlot => AcceptKeeps(s);
      case Arrive(fd) => ArriveKeeps(s, fd);
      case Resume(fd) => ResumeKeeps(s, fd);
      case SendOk(fd) => SendOkKeeps(s, fd);
      case SendFail(fd) => SendFailKeeps(s, fd);
      case GiveUp(fd) => GiveUpKeeps(s, fd);
      case SlotReady(id) => SlotReadyKeeps(s, id);
      case SlotRecv(id, ackOk) => SlotRecvKeeps(s, id, ackOk);
      case SlotEnd(id) => SlotEndKeeps(s, id);
      case SlotDie(id) => ExitKeeps(s, id, s.slots[id].up);
      case ReaderRecv(id) => ReaderRecvKeeps(s, id);
      case ReaderExit(id) => ReaderExitKeeps(s, id);
      case Reap(floor, sends) => DrainManyKeeps(s, ReapList(s.pools, s.now, floor), sends);
      case Sighup(max, sends) => DrainManyKeeps(s, SighupList(s.pools, max), sends);
      case Watchdog(id) => WatchdogKeeps(s, id);
      case Tick(ms) => TickKeeps(s, ms);
    }
  }

  lemma ReaderExitKeeps(s: Sys, k: nat)
    requires Inv(s) && Enabled(s, ReaderExit(k))
    ensures Inv(Step(s, ReaderExit(k)))
  {
    ReaderGoneKeeps(s, Step(s, ReaderExit(k)), k, s.slots[k].up);
  }

  lemma {:induction false} RunKeeps(s: Sys, es: seq<Event>)
    requires Inv(s)
    ensures Inv(Exec(s, es))
  {
    if es != [] {
      RunKeeps(s, es[..|es| - 1]);
      StepKeeps(Exec(s, es[..|es| - 1]), es[|es| - 1]);
    }
  }

  /** Every state the system can reach satisfies the invariant. */
  lemma ReachableInv(es: seq<Event>)
    ensures Inv(Exec(INIT, es))
  {
    RunKeeps(INIT, es);
  }
}
