/**
  The frontend and its slot processes as one transition system. A step is the code
  between two awaits of one frontend task, one action of a slot process, or an act
  of the environment: a process dies, a send fails, a task is dropped, time passes.
*/
module Protocol {
  import opened Wrappers
  import opened PoolState

  /** A client connection, named by the handoff it came in with. */
  type Fd = nat

  /** A slot is about to announce readiness, waits for a control message, serves a client, or is gone. */
  datatype Pc = Starting | Waiting | Serving(fd: Fd) | Exited

  datatype Down = FdMsg(fd: Fd) | Drain

  datatype Up = R | A

  /**
    One slot: its own state, the two channels, whether the frontend's reader task
    still runs, and whether the frontend has shut its sending side.
  */
  datatype Slot = Slot(pc: Pc, down: seq<Down>, up: seq<Up>, reader: bool, closed: bool)

  /** Where a client connection is, from the handoff to the end. */
  datatype Fate = Asleep | Woken | Sending(slot: nat) | Queued(slot: nat) | InSession(slot: nat) | Finished | Dropped

  /**
    `waiters` is the queue of the notifier and `woken` the handoffs it has notified
    that have not run yet; `sending` holds the sends in progress, by slot; `watch`
    the drain watchdogs with their deadlines; `stuck` the slots that were popped
    for a send that never arrived.
  */
  datatype Sys = Sys(pools: Pools, slots: map<nat, Slot>, fates: map<Fd, Fate>,
                     waiters: seq<Fd>, woken: set<Fd>, permit: bool,
                     sending: map<nat, Fd>, watch: map<nat, nat>, now: nat, stuck: set<nat>)

  const INIT := Sys(EMPTY, map[], map[], [], {}, false, map[], map[], 0, {})

  datatype Event =
    | AcceptSlot
    | Arrive(fd: Fd)
    | Resume(fd: Fd)
    | SendOk(fd: Fd)
    | SendFail(fd: Fd)
    | GiveUp(fd: Fd)
    | SlotReady(id: nat)
    | SlotRecv(id: nat, ackOk: bool)
    | SlotEnd(id: nat)
    | SlotDie(id: nat)
    | ReaderRecv(id: nat)
    | ReaderExit(id: nat)
    | Reap(floor: nat, sends: set<nat>)
    | Sighup(max: nat, sends: set<nat>)
    | Watchdog(id: nat)
    | Tick(ms: nat)

  // ---------------------------------------------------------------------------
  // Pieces of steps
  // ---------------------------------------------------------------------------

  /** `Notify::notify_one`: wake the longest waiter, or store the one permit. */
  function NotifyOne(s: Sys): Sys {
    if s.waiters == [] then s.(permit := true)
    else s.(waiters := s.waiters[1..], woken := s.woken + {s.waiters[0]}, fates := s.fates[s.waiters[0] := Woken])
  }

  /**
    `try_pop_ready`, then either the send or another wait. A stored permit is used up
    by the first poll of the wait, which finds no slot and polls again.
  */
  function TryDispatch(s: Sys, fd: Fd): Sys {
    var (p, popped) := PopReady(s.pools);
    match popped
    case Some(id) => s.(pools := p, fates := s.fates[fd := Sending(id)], sending := s.sending[id := fd])
    case None => s.(permit := false, waiters := s.waiters + [fd], fates := s.fates[fd := Asleep])
  }

  function DropWaiter(ws: seq<Fd>, fd: Fd): seq<Fd> {
    if ws == [] then [] else if ws[0] == fd then ws[1..] else [ws[0]] + DropWaiter(ws[1..], fd)
  }

  /** Connections in a channel nobody will read again are closed with it. */
  function Lose(fates: map<Fd, Fate>, down: seq<Down>): map<Fd, Fate>
    decreases |down|
  {
    if down == [] then fates
    else match down[0]
      case FdMsg(f) => Lose(fates[f := Dropped], down[1..])
      case Drain => Lose(fates, down[1..])
  }

  /** The process ends: its session and whatever was queued for it are lost. */
  function Exit(s: Sys, id: nat, up: seq<Up>): Sys
    requires id in s.slots
  {
    var sl := s.slots[id];
    var fates := if sl.pc.Serving? then s.fates[sl.pc.fd := Dropped] else s.fates;
    s.(slots := s.slots[id := sl.(pc := Exited, down := [], up := up)], fates := Lose(fates, sl.down))
  }

  function ReaderGone(s: Sys, id: nat, pools: Pools): Sys
    requires id in s.slots
  {
    s.(pools := pools, slots := s.slots[id := s.slots[id].(reader := false, closed := true)])
  }

  /** `request_drain`: move, send 'X' if the socket takes it, start the watchdog. */
  function DrainOne(s: Sys, id: nat, sendOk: bool): Sys {
    if id !in Ids(s.pools.ready) then s
    else
      var moved := s.(pools := MoveToDraining(s.pools, id), watch := s.watch[id := s.now + DRAIN_ACK_TIMEOUT]);
      if sendOk && id in s.slots && !s.slots[id].pc.Exited? && !s.slots[id].closed
      then moved.(slots := s.slots[id := s.slots[id].(down := s.slots[id].down + [Drain])])
      else moved
  }

  function DrainMany(s: Sys, ids: seq<nat>, sends: set<nat>): Sys {
    if ids == [] then s
    else DrainOne(DrainMany(s, ids[..|ids| - 1], sends), ids[|ids| - 1], ids[|ids| - 1] in sends)
  }

  // ---------------------------------------------------------------------------
  // Steps
  // ---------------------------------------------------------------------------

  predicate Enabled(s: Sys, e: Event) {
    match e
    case AcceptSlot => true
    case Arrive(fd) => fd !in s.fates
    case Resume(fd) => fd in s.woken
    case SendOk(fd) =>
      fd in s.fates && s.fates[fd].Sending? && s.fates[fd].slot in s.slots
      && !s.slots[s.fates[fd].slot].pc.Exited? && !s.slots[s.fates[fd].slot].closed
    case SendFail(fd) => fd in s.fates && s.fates[fd].Sending?
    case GiveUp(fd) => fd in s.fates && (s.fates[fd].Asleep? || s.fates[fd].Woken?)
    case SlotReady(id) => id in s.slots && s.slots[id].pc.Starting? && s.slots[id].reader
    case SlotRecv(id, _) => id in s.slots && s.slots[id].pc.Waiting? && s.slots[id].down != []
    case SlotEnd(id) => id in s.slots && s.slots[id].pc.Serving?
    case SlotDie(id) => id in s.slots && !s.slots[id].pc.Exited?
    case ReaderRecv(id) => id in s.slots && s.slots[id].reader && s.slots[id].up != []
    case ReaderExit(id) => id in s.slots && s.slots[id].reader
    case Reap(_, _) => true
    case Sighup(_, _) => true
    case Watchdog(id) => id in s.watch && s.watch[id] <= s.now
    case Tick(_) => true
  }

  function Apply(s: Sys, e: Event): Sys
    requires Enabled(s, e)
  {
    match e
    case AcceptSlot =>
      s.(pools := Accept(s.pools, s.now),
         slots := s.slots[s.pools.counter := Slot(Starting, [], [], true, false)])
    case Arrive(fd) => TryDispatch(s, fd)
    case Resume(fd) => TryDispatch(s.(woken := s.woken - {fd}), fd)
    case SendOk(fd) =>
      var id := s.fates[fd].slot;
      s.(fates := s.fates[fd := Queued(id)], sending := s.sending - {id},
         slots := s.slots[id := s.slots[id].(down := s.slots[id].down + [FdMsg(fd)])])
    case SendFail(fd) =>
      var id := s.fates[fd].slot;
      s.(fates := s.fates[fd := Dropped], sending := s.sending - {id}, stuck := s.stuck + {id})
    case GiveUp(fd) =>
      var t := s.(fates := s.fates[fd := Dropped]);
      if s.fates[fd].Asleep? then t.(waiters := DropWaiter(s.waiters, fd))
      else NotifyOne(t.(woken := s.woken - {fd}))
    case SlotReady(id) =>
      s.(slots := s.slots[id := s.slots[id].(pc := Waiting, up := s.slots[id].up + [R])])
    case SlotRecv(id, ackOk) =>
      (match s.slots[id].down[0]
       case FdMsg(f) =>
         s.(slots := s.slots[id := s.slots[id].(pc := Serving(f), down := s.slots[id].down[1..])],
            fates := s.fates[f := InSession(id)])
       case Drain => Exit(s, id, if ackOk && s.slots[id].reader then s.slots[id].up + [A] else s.slots[id].up))
    case SlotEnd(id) =>
      s.(slots := s.slots[id := s.slots[id].(pc := Starting)], fates := s.fates[s.slots[id].pc.fd := Finished])
    case SlotDie(id) => Exit(s, id, s.slots[id].up)
    case ReaderRecv(id) =>
      var t := s.(slots := s.slots[id := s.slots[id].(up := s.slots[id].up[1..])]);
      if s.slots[id].up[0] == A then ReaderGone(t, id, Cleanup(OnDrainAck(s.pools, id), id))
      else
        var u := t.(pools := OnReady(s.pools, id, s.now));
        if id in s.pools.inFlight then NotifyOne(u) else u
    case ReaderExit(id) => ReaderGone(s, id, Cleanup(s.pools, id))
    case Reap(floor, sends) => DrainMany(s, ReapList(s.pools, s.now, floor), sends)
    case Sighup(max, sends) => DrainMany(s, SighupList(s.pools, max), sends)
    case Watchdog(id) =>
      var t := s.(watch := s.watch - {id});
      if id in s.pools.draining && id in s.slots
      then t.(pools := OnDrainAck(s.pools, id), slots := s.slots[id := s.slots[id].(closed := true)])
      else t
    case Tick(ms) => s.(now := s.now + ms)
  }

  /** An event that cannot happen changes nothing, so every list of events is a run. */
  function Step(s: Sys, e: Event): Sys {
    if Enabled(s, e) then Apply(s, e) else s
  }

  function Exec(s: Sys, es: seq<Event>): Sys {
    if es == [] then s else Step(Exec(s, es[..|es| - 1]), es[|es| - 1])
  }

  // ---------------------------------------------------------------------------
  // The invariant
  // ---------------------------------------------------------------------------

  predicate SlotIdle(sl: Slot) { sl.pc.Waiting? && sl.down == [] && sl.up == [] }

  predicate SlotGone(sl: Slot) { sl.pc.Exited? && sl.down == [] && sl.up == [] }

  /** At most one message is under way, and only for a slot that waits. */
  predicate Shape(sl: Slot) {
    match sl.pc
    case Waiting =>
      (sl.down == [] || sl.down == [Drain] || (|sl.down| == 1 && sl.down[0].FdMsg?))
      && (sl.up == [] || (sl.up == [R] && sl.down == []))
    case Exited => sl.down == [] && (sl.up == [] || sl.up == [R] || sl.up == [A])
    case _ => sl.down == [] && sl.up == []
  }

  /** Draining or past its watchdog: 'X' may be under way, or the ack behind it. */
  predicate DrainShape(sl: Slot) {
    (sl.pc.Waiting? && sl.up == [] && (sl.down == [] || sl.down == [Drain]))
    || (sl.pc.Exited? && sl.up != [R])
  }

  /** What the container a slot is in says about its channels and its own state. */
  predicate SlotOk(sl: Slot, place: Place, sending: bool, stuck: bool) {
    && Shape(sl)
    && (sl.closed <==> place == Gone)
    && (!sl.reader ==> place == Gone)
    && (place == Ready ==> SlotIdle(sl) || SlotGone(sl))
    && (place == Draining ==> DrainShape(sl))
    && (place == Gone && sl.reader ==> DrainShape(sl))
    && (place == InFlight ==> sl.up != [A] && sl.down != [Drain] && (SlotIdle(sl) ==> sending || stuck))
    && (sending || stuck ==> place in {InFlight, Gone} && (SlotIdle(sl) || SlotGone(sl)))
    && !(sending && stuck)
    && (place == Gone && sl.reader ==> !sending && !stuck)
  }

  predicate SlotAt(s: Sys, id: nat)
    requires id in s.slots
  {
    && SlotOk(s.slots[id], PlaceOf(s.pools, id), id in s.sending, id in s.stuck)
    && (s.slots[id].pc.Serving? ==> Has(s.fates, s.slots[id].pc.fd, InSession(id)))
    && (s.slots[id].down != [] && s.slots[id].down[0].FdMsg? ==> Has(s.fates, s.slots[id].down[0].fd, Queued(id)))
    && (id in s.sending ==> Has(s.fates, s.sending[id], Sending(id)))
  }

  predicate Has(fates: map<Fd, Fate>, f: Fd, fate: Fate) { f in fates && fates[f] == fate }

  /** Each connection is where its fate says. */
  predicate FdAt(s: Sys, f: Fd)
    requires f in s.fates
  {
    match s.fates[f]
    case Asleep => f in s.waiters
    case Woken => f in s.woken
    case Sending(id) => id in s.sending && s.sending[id] == f
    case Queued(id) => id in s.slots && s.slots[id].down == [FdMsg(f)]
    case InSession(id) => id in s.slots && s.slots[id].pc == Serving(f)
    case _ => true
  }

  predicate DistinctFds(ws: seq<Fd>) {
    forall i, j :: 0 <= i < j < |ws| ==> ws[i] != ws[j]
  }

  ghost predicate SlotsOk(s: Sys) {
    && WellFormed(s.pools)
    && (forall id: nat :: id in s.slots <==> id < s.pools.counter)
    && (forall id :: id in s.slots ==> SlotAt(s, id))
    && (forall id :: id in s.sending || id in s.stuck ==> id in s.slots)
  }

  ghost predicate FdsOk(s: Sys) {
    && (forall f :: f in s.fates ==> FdAt(s, f))
    && DistinctFds(s.waiters)
    && (forall f :: f in s.waiters ==> Has(s.fates, f, Asleep))
    && (forall f :: f in s.woken ==> Has(s.fates, f, Woken))
  }

  /** If anyone sleeps un-notified, there are at most `debt` more ready slots than handoffs on their way to them. */
  ghost predicate WakeOk(s: Sys, debt: nat) {
    s.waiters != [] ==> !s.permit && |s.pools.ready| <= |s.woken| + debt
  }

  ghost predicate TimersOk(s: Sys) {
    && Sorted(s.pools.ready, s.now)
    && (forall id :: id in s.pools.draining ==> id in s.watch)
    && (forall id :: id in s.watch ==> s.watch[id] <= s.now + DRAIN_ACK_TIMEOUT)
  }

  ghost predicate Inv(s: Sys) {
    SlotsOk(s) && FdsOk(s) && WakeOk(s, 0) && TimersOk(s)
  }
}
