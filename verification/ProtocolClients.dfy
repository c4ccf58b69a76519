/** Client connections over every run: each is in one place, moves forward only, and is served at most once. */
module ProtocolClients {
  import opened PoolState
  import opened Protocol
  import opened ProtocolInv
  import opened ProtocolTheorems

  /**
    A connection is exactly where its fate says and nowhere else: in the notifier's
    queue, notified, in one pending send, in one slot's channel, in one slot's
    session, or in none of these.
  */
  lemma OneHome(es: seq<Event>, f: Fd, id: nat)
    ensures var s := Exec(INIT, es);
            && (f in s.waiters <==> Has(s.fates, f, Asleep))
            && (f in s.woken <==> Has(s.fates, f, Woken))
            && (id in s.sending && s.sending[id] == f <==> Has(s.fates, f, Sending(id)))
            && (id in s.slots && FdMsg(f) in s.slots[id].down <==> Has(s.fates, f, Queued(id)))
            && (id in s.slots && s.slots[id].pc == Serving(f) <==> Has(s.fates, f, InSession(id)))
            && (id in s.slots && FdMsg(f) in s.slots[id].down ==> s.slots[id].down == [FdMsg(f)])
            && DistinctFds(s.waiters)
  {
    var s := Exec(INIT, es);
    ReachableInv(es);
    HomeAt(s, f, id);
  }

  lemma HomeAt(s: Sys, f: Fd, id: nat)
    requires Inv(s)
    ensures f in s.waiters <==> Has(s.fates, f, Asleep)
    ensures f in s.woken <==> Has(s.fates, f, Woken)
    ensures id in s.sending && s.sending[id] == f <==> Has(s.fates, f, Sending(id))
    ensures id in s.slots && FdMsg(f) in s.slots[id].down <==> Has(s.fates, f, Queued(id))
    ensures id in s.slots && s.slots[id].pc == Serving(f) <==> Has(s.fates, f, InSession(id))
    ensures id in s.slots && FdMsg(f) in s.slots[id].down ==> s.slots[id].down == [FdMsg(f)]
  {
    assert f in s.fates ==> FdAt(s, f);
    assert id in s.slots ==> SlotAt(s, id);
  }

  /** The only moves a connection can make. */
  predicate Moves(a: Fate, b: Fate) {
    a == b ||
    match a
    case Asleep => b.Woken? || b.Dropped?
    case Woken => b.Asleep? || b.Sending? || b.Dropped?
    case Sending(id) => b == Queued(id) || b.Dropped?
    case Queued(id) => b == InSession(id) || b.Dropped?
    case InSession(id) => b.Finished? || b.Dropped?
    case _ => false
  }

  lemma FatesOfNotify(s: Sys, f: Fd)
    requires f in s.fates && (s.waiters != [] ==> Has(s.fates, s.waiters[0], Asleep))
    ensures f in NotifyOne(s).fates && Moves(s.fates[f], NotifyOne(s).fates[f])
    ensures s.fates[f].Dropped? ==> NotifyOne(s).fates[f].Dropped?
    ensures NotifyOne(s).fates[f].Dropped? ==> s.fates[f].Dropped?
  {
  }

  lemma FatesOfExit(s: Sys, k: nat, up: seq<Up>, f: Fd)
    requires Inv(s) && k in s.slots && !s.slots[k].pc.Exited? && f in s.fates
    ensures var t := Exit(s, k, up);
            && f in t.fates && Moves(s.fates[f], t.fates[f])
            && (t.fates[f] != s.fates[f] ==> s.fates[f] in {Queued(k), InSession(k)} && t.fates[f].Dropped?)
            && (s.slots[k].pc.Waiting? && s.slots[k].down != [] && s.slots[k].down[0] == Drain ==> t.fates == s.fates)
  {
    assert SlotAt(s, k);
    ExitFates(s, k, up);
  }

  predicate FateQuiet(e: Event) {
    match e
    case AcceptSlot => true
    case SlotReady(_) => true
    case ReaderExit(_) => true
    case Watchdog(_) => true
    case Tick(_) => true
    case Reap(_, _) => true
    case Sighup(_, _) => true
    case _ => false
  }

  lemma FatesStand(s: Sys, e: Event)
    requires FateQuiet(e)
    ensures Step(s, e).fates == s.fates
  {
    if DrainEvent(e) {
      DrainStepPools(s, e);
    }
  }

  predicate OwnFate(e: Event) { e.Arrive? || e.Resume? || e.SendOk? || e.SendFail? }

  lemma OwnFateMoves(s: Sys, e: Event, f: Fd)
    requires OwnFate(e) && f in s.fates && Enabled(s, e)
    requires e.Resume? ==> Has(s.fates, e.fd, Woken)
    ensures var t := Step(s, e);
            && f in t.fates && Moves(s.fates[f], t.fates[f])
            && (t.fates[f].Dropped? && !s.fates[f].Dropped? ==> e == SendFail(f) && s.fates[f].Sending?)
  {
  }

  /** Every step moves every connection forward or not at all, and forgets none. */
  lemma FateMoves(s: Sys, e: Event, f: Fd)
    requires Inv(s) && f in s.fates
    ensures f in Step(s, e).fates && Moves(s.fates[f], Step(s, e).fates[f])
  {
    DropCause(s, e, f);
  }

  predicate CauseOf(s: Sys, e: Event, f: Fd)
    requires f in s.fates
  {
    || (e == GiveUp(f) && (s.fates[f].Asleep? || s.fates[f].Woken?))
    || (e == SendFail(f) && s.fates[f].Sending?)
    || (e.SlotDie? && s.fates[f] in {Queued(e.id), InSession(e.id)})
  }

  lemma DropCause(s: Sys, e: Event, f: Fd)
    requires Inv(s) && f in s.fates
    ensures var t := Step(s, e);
            && f in t.fates && Moves(s.fates[f], t.fates[f])
            && (t.fates[f].Dropped? && !s.fates[f].Dropped? ==> CauseOf(s, e, f))
  {
    if FateQuiet(e) {
      FatesStand(s, e);
    } else if Enabled(s, e) {
      match e
      case GiveUp(fd) => GiveUpFates(s, fd, f);
      case SlotRecv(id, ackOk) => SlotRecvFates(s, id, ackOk, f);
      case SlotEnd(id) => SlotEndFates(s, id, f);
      case SlotDie(id) => FatesOfExit(s, id, s.slots[id].up, f);
      case ReaderRecv(id) => ReaderRecvFates(s, id, f);
      case _ => OwnFateMoves(s, e, f);
    }
  }

  lemma SlotEndFates(s: Sys, id: nat, f: Fd)
    requires SlotsOk(s) && f in s.fates && Enabled(s, SlotEnd(id))
    ensures var t := Step(s, SlotEnd(id));
            && f in t.fates && Moves(s.fates[f], t.fates[f])
            && (t.fates[f].Dropped? ==> s.fates[f].Dropped?)
  {
    assert SlotAt(s, id);
  }

  lemma GiveUpFates(s: Sys, fd: Fd, f: Fd)
    requires Inv(s) && f in s.fates && Enabled(s, GiveUp(fd))
    ensures var t := Step(s, GiveUp(fd));
            && f in t.fates && Moves(s.fates[f], t.fates[f])
            && (t.fates[f].Dropped? && !s.fates[f].Dropped? ==> f == fd)
  {
    if s.fates[fd].Woken? {
      var u := s.(fates := s.fates[fd := Dropped], woken := s.woken - {fd});
      assert s.waiters != [] ==> s.waiters[0] in s.waiters;
      FatesOfNotify(u, f);
    }
  }

  lemma SlotRecvFates(s: Sys, id: nat, ackOk: bool, f: Fd)
    requires Inv(s) && f in s.fates && Enabled(s, SlotRecv(id, ackOk))
    ensures var t := Step(s, SlotRecv(id, ackOk));
            && f in t.fates && Moves(s.fates[f], t.fates[f])
            && (t.fates[f].Dropped? ==> s.fates[f].Dropped?)
  {
    assert SlotAt(s, id);
    match s.slots[id].down[0]
    case FdMsg(g) =>
    case Drain =>
      FatesOfExit(s, id, if ackOk && s.slots[id].reader then s.slots[id].up + [A] else s.slots[id].up, f);
  }

  lemma ReaderRecvFates(s: Sys, id: nat, f: Fd)
    requires Inv(s) && f in s.fates && Enabled(s, ReaderRecv(id))
    ensures var t := Step(s, ReaderRecv(id));
            && f in t.fates && Moves(s.fates[f], t.fates[f])
            && (t.fates[f].Dropped? ==> s.fates[f].Dropped?)
  {
    assert SlotAt(s, id);
    if s.slots[id].up[0] == R {
      ReadyIsNotify(s, id);
      assert s.waiters != [] ==> s.waiters[0] in s.waiters;
      FatesOfNotify(MadeReady(s, id), f);
    }
  }

  /**
    A connection is dropped only by its own timeout or cancellation, by its own send
    failing, or by the death of the process that holds it. In particular a drain, a
    reap, a watchdog or a late reader never costs a client anything.
  */
  lemma DropHasCause(es: seq<Event>, e: Event, f: Fd)
    requires var s := Exec(INIT, es);
             f in s.fates && !s.fates[f].Dropped? && Has(Step(s, e).fates, f, Dropped)
    ensures CauseOf(Exec(INIT, es), e, f)
  {
    ReachableInv(es);
    DropCause(Exec(INIT, es), e, f);
  }

  // ---------------------------------------------------------------------------
  // Conservation and single service, over runs
  // ---------------------------------------------------------------------------

  lemma FateKeys(s: Sys, e: Event)
    requires Inv(s)
    ensures Step(s, e).fates.Keys == s.fates.Keys + if e.Arrive? then {e.fd} else {}
  {
    forall f | f in s.fates ensures f in Step(s, e).fates { FateMoves(s, e, f); }
    NoNewFates(s, e);
  }

  lemma NoNewFates(s: Sys, e: Event)
    requires Inv(s)
    ensures forall f :: f in Step(s, e).fates ==> f in s.fates || e == Arrive(f)
  {
    if FateQuiet(e) {
      FatesStand(s, e);
    } else if Enabled(s, e) {
      match e
      case SlotDie(id) => DieKeys(s, id);
      case SlotRecv(id, ackOk) => RecvKeys(s, id, ackOk);
      case SlotEnd(id) => assert SlotAt(s, id);
      case ReaderRecv(id) => ReaderRecvKeys(s, id);
      case GiveUp(fd) => GiveUpKeys(s, fd);
      case Resume(fd) => assert Has(s.fates, fd, Woken);
      case _ =>
    }
  }

  lemma DieKeys(s: Sys, id: nat)
    requires SlotsOk(s) && Enabled(s, SlotDie(id))
    ensures forall f :: f in Step(s, SlotDie(id)).fates ==> f in s.fates
  {
    assert SlotAt(s, id);
    ExitFates(s, id, s.slots[id].up);
  }

  lemma GiveUpKeys(s: Sys, fd: Fd)
    requires Inv(s) && Enabled(s, GiveUp(fd))
    ensures forall f :: f in Step(s, GiveUp(fd)).fates ==> f in s.fates
  {
    assert s.waiters != [] ==> s.waiters[0] in s.waiters;
  }

  lemma ReaderRecvKeys(s: Sys, id: nat)
    requires Inv(s) && Enabled(s, ReaderRecv(id))
    ensures forall f :: f in Step(s, ReaderRecv(id)).fates ==> f in s.fates
  {
    assert SlotAt(s, id);
    assert s.waiters != [] ==> s.waiters[0] in s.waiters;
    if s.slots[id].up[0] == R {
      ReadyIsNotify(s, id);
    }
  }

  lemma RecvKeys(s: Sys, id: nat, ackOk: bool)
    requires Inv(s) && Enabled(s, SlotRecv(id, ackOk))
    ensures forall f :: f in Step(s, SlotRecv(id, ackOk)).fates ==> f in s.fates
  {
    assert SlotAt(s, id);
    ExitFates(s, id, s.slots[id].up);
    ExitFates(s, id, s.slots[id].up + [A]);
  }

  /** The connections the system accounts for are exactly those that came in. */
  lemma {:induction false} EveryArrivalAccountedFor(es: seq<Event>, f: Fd)
    ensures f in Exec(INIT, es).fates <==> Arrive(f) in es
  {
    if es != [] {
      var n := |es| - 1;
      EveryArrivalAccountedFor(es[..n], f);
      ReachableInv(es[..n]);
      FateKeys(Exec(INIT, es[..n]), es[n]);
      assert es == es[..n] + [es[n]];
    }
  }

  predicate Begins(s: Sys, e: Event, f: Fd) {
    f in Step(s, e).fates && Step(s, e).fates[f].InSession? && !(f in s.fates && s.fates[f].InSession?)
  }

  /** How often a session was begun for this connection, on any slot. */
  function Sessions(es: seq<Event>, f: Fd): nat {
    if es == [] then 0
    else
      var n := |es| - 1;
      Sessions(es[..n], f) + if Begins(Exec(INIT, es[..n]), es[n], f) then 1 else 0
  }

  predicate Early(fates: map<Fd, Fate>, f: Fd) {
    f in fates ==> fates[f] in {Asleep, Woken} || fates[f].Sending? || fates[f].Queued?
  }

  /** Whatever happens, no connection is served twice; and none is finished without having been served. */
  lemma {:induction false} ServedAtMostOnce(es: seq<Event>, f: Fd)
    ensures var s := Exec(INIT, es);
            && Sessions(es, f) <= 1
            && (Early(s.fates, f) ==> Sessions(es, f) == 0)
            && (f in s.fates && (s.fates[f].InSession? || s.fates[f].Finished?) ==> Sessions(es, f) == 1)
  {
    if es != [] {
      var n := |es| - 1;
      var s := Exec(INIT, es[..n]);
      ServedAtMostOnce(es[..n], f);
      ReachableInv(es[..n]);
      FateKeys(s, es[n]);
      if f in s.fates {
        FateMoves(s, es[n], f);
      } else {
        NewcomerFate(s, es[n], f);
      }
    }
  }

  lemma NewcomerFate(s: Sys, e: Event, f: Fd)
    requires Inv(s) && f !in s.fates
    ensures Early(Step(s, e).fates, f)
  {
    FateKeys(s, e);
  }
}
