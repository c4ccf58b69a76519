/**
  The slot process: its control loop, the sessions it serves one after another, and
  the reset between them. The point is isolation: what one client leaves behind
  must not show in the next client's replies.
*/
module SlotProcess {
  import opened Wrappers
  import opened Xact
  import opened BatchSpec
  import opened RolPassword
  import opened Scram
  import opened Text
  import BatchTheorems
  import SimpleDirect
  import SpiBridge
  import Sasl

  type Prepared = map<string, string>

  /** A message of an admitted client: a simple query, whose statements may use prepared ones, or a change to those. */
  datatype ClientMsg = Simple(text: Prepared -> QueryText) | Parse(update: Prepared -> Prepared)

  /** Everything one client sends over its connection. */
  datatype Session = Session(startup: seq<Sasl.Delivery>, msgs: seq<ClientMsg>)

  /** Everything the client gets to see. */
  datatype Reply = Reply(auth: seq<seq<Sasl.Frame>>, results: seq<QueryResult>)

  /** Session state of the slot process, and the configured settings a session starts with. */
  datatype State = State(pg: Pg, prepared: Prepared, defaults: Table)

  const BACKEND := "pg_transport.execution_backend"

  predicate Direct(settings: Table) { BACKEND in settings && settings[BACKEND] == "direct" }

  function FreshWorld(defaults: Table, w: World): World { w.(settings := defaults) }

  /** What a process that has served nobody looks like over a given committed world. */
  function Fresh(defaults: Table, w: World): State {
    State(Pg(DefaultBlock, FreshWorld(defaults, w), FreshWorld(defaults, w), 0, 0), map[], defaults)
  }

  predicate Unused(v: State) { v == Fresh(v.defaults, v.pg.committed) }

  /** Abort any transaction, drop prepared statements, put the settings back; the rest of the session's state stays. */
  function Reset(v: State): State {
    var p, d := AbortOutOfAny(v.pg), v.defaults;
    State(p.(committed := FreshWorld(d, p.committed), working := FreshWorld(d, p.working)), map[], d)
  }

  /** The reset ends in the fresh state over whatever was committed. */
  lemma ResetIsFresh(v: State)
    ensures Reset(v) == Fresh(v.defaults, v.pg.committed)
    ensures Quiescent(Reset(v).pg)
  {
  }

  // ---------------------------------------------------------------------------
  // One session
  // ---------------------------------------------------------------------------

  function Concrete(a: BatchSpec.Session): Pg {
    var block := match a.mode case Idle => DefaultBlock case Open => InProgress case FailedBlock => Abort;
    Pg(block, a.base, a.cur, 0, 0)
  }

  lemma ConcreteAbstract(p: Pg)
    requires Quiescent(p)
    ensures Concrete(Abstract(p)) == p && Sound(Abstract(p))
  {
  }

  /** The replies to a client's messages, up to the message whose panic takes the process down. */
  function Serve(v: State, msgs: seq<ClientMsg>, ok: World -> bool): (State, seq<QueryResult>)
    decreases |msgs|
  {
    if msgs == [] then (v, [])
    else match msgs[0]
      case Parse(update) => Serve(v.(prepared := update(v.prepared)), msgs[1..], ok)
      case Simple(text) =>
        var (a, r) := Answer(Direct(v.pg.working.settings), Abstract(v.pg), text(v.prepared), ok);
        var v' := v.(pg := Concrete(a));
        if r.Unwound? then (v', [r])
        else
          var (w, rs) := Serve(v', msgs[1..], ok);
          (w, [r] + rs)
  }

  function AuthFrames(ph: Sasl.Phase, run: seq<Sasl.Delivery>): seq<seq<Sasl.Frame>> {
    seq(|run|, k requires 0 <= k < |run| => Sasl.ReplyAt(ph, run, k).frames)
  }

  predicate Admitted(auth: seq<seq<Sasl.Frame>>) {
    exists k :: 0 <= k < |auth| && Sasl.AuthOk in auth[k]
  }

  /** A session: the startup exchange from an idle phase, then the messages if the client was admitted. */
  function RunSession(v: State, s: Session, ok: World -> bool): (State, Reply) {
    var auth := AuthFrames(Sasl.Idle, s.startup);
    if Admitted(auth) then
      var (w, rs) := Serve(v, s.msgs, ok);
      (w, Reply(auth, rs))
    else (v, Reply(auth, []))
  }

  predicate Died(r: Reply) {
    |r.results| > 0 && r.results[|r.results| - 1].Unwound?
  }

  lemma {:induction false} ServeQuiescent(v: State, msgs: seq<ClientMsg>, ok: World -> bool)
    requires Quiescent(v.pg)
    ensures Quiescent(Serve(v, msgs, ok).0.pg) && Serve(v, msgs, ok).0.defaults == v.defaults
    decreases |msgs|
  {
    if msgs != [] {
      match msgs[0]
      case Parse(update) =>
        ServeQuiescent(v.(prepared := update(v.prepared)), msgs[1..], ok);
      case Simple(text) =>
        var direct, body := Direct(v.pg.working.settings), text(v.prepared);
        BatchTheorems.QuerySound(direct, Abstract(v.pg), body, ok);
        var (a, r) := Answer(direct, Abstract(v.pg), body, ok);
        assert Quiescent(Concrete(a));
        ServeQuiescent(v.(pg := Concrete(a)), msgs[1..], ok);
    }
  }

  // ---------------------------------------------------------------------------
  // The control loop
  // ---------------------------------------------------------------------------

  datatype Op = Ready | DrainAck

  /**
    What one turn of the loop finds: a client with whether the reset and the ready
    byte behind it succeed, a drain request with whether the ack goes out, or one of
    the other ways the wait can end.
  */
  datatype Ctrl =
    | FdHandoff(session: Session, resetOk: bool, readyOk: bool)
    | DrainRequest(ackOk: bool)
    | Eof | Timeout | Sigterm | RecvError

  /** What a run of the process leaves: final state, bytes sent, and the replies of the sessions in order. */
  datatype Run = Run(view: State, sent: seq<Op>, replies: seq<Reply>)

  function Loop(v: State, ctrls: seq<Ctrl>, ok: World -> bool): Run
    decreases |ctrls|
  {
    if ctrls == [] then Run(v, [], [])
    else match ctrls[0]
      case Timeout => Loop(v, ctrls[1..], ok)
      case FdHandoff(session, resetOk, readyOk) =>
        var (w, reply) := RunSession(v, session, ok);
        if Died(reply) || !resetOk then Run(w, [], [reply])
        else if !readyOk then Run(Reset(w), [], [reply])
        else Behind([Ready], [reply], Loop(Reset(w), ctrls[1..], ok))
      case DrainRequest(ackOk) => Run(v, if ackOk then [DrainAck] else [], [])
      case _ => Run(v, [], [])
  }

  function Behind(sent: seq<Op>, replies: seq<Reply>, r: Run): Run {
    Run(r.view, sent + r.sent, replies + r.replies)
  }

  lemma BehindTwice(sent: seq<Op>, replies: seq<Reply>, more: seq<Op>, replies': seq<Reply>, r: Run)
    ensures Behind(sent, replies, Behind(more, replies', r)) == Behind(sent + more, replies + replies', r)
  {
    assert sent + (more + r.sent) == sent + more + r.sent;
    assert replies + (replies' + r.replies) == replies + replies' + r.replies;
  }

  /** One delivery takes the phase from `before` to `after` and is answered with `frames`. */
  predicate Delivered(d: Sasl.Delivery, before: Sasl.Phase, after: Sasl.Phase, frames: seq<Sasl.Frame>) {
    var r := Sasl.OnMessage(d.env, before, d.msg);
    r.phase == after && r.frames == frames
  }

  /** The phases and answers of an exchange, delivery by delivery. */
  predicate Traced(startup: seq<Sasl.Delivery>, phases: seq<Sasl.Phase>, auth: seq<seq<Sasl.Frame>>) {
    && |phases| == |startup| + 1 && |auth| == |startup| && phases[0] == Sasl.Idle
    && forall k :: 0 <= k < |startup| ==> Delivered(startup[k], phases[k], phases[k + 1], auth[k])
  }

  lemma {:induction false} Trace(startup: seq<Sasl.Delivery>) returns (phases: seq<Sasl.Phase>)
    ensures Traced(startup, phases, AuthFrames(Sasl.Idle, startup))
  {
    phases := seq(|startup| + 1, k requires 0 <= k <= |startup| => Sasl.PhaseAfter(Sasl.Idle, startup[..k]));
    forall k | 0 <= k < |startup|
      ensures Delivered(startup[k], phases[k], phases[k + 1], AuthFrames(Sasl.Idle, startup)[k])
    {
      Sasl.PhaseStep(Sasl.Idle, startup, k);
    }
  }

  /** The exchange of one connection, on a handler made for it. */
  method Exchange(startup: seq<Sasl.Delivery>, ghost phases: seq<Sasl.Phase>, ghost all: seq<seq<Sasl.Frame>>)
    returns (auth: seq<seq<Sasl.Frame>>, admitted: bool)
    requires Traced(startup, phases, all)
    ensures auth == all && (admitted <==> Admitted(auth))
  {
    var handler := new Sasl.StartupHandler();
    auth, admitted := [], false;
    for i := 0 to |startup|
      invariant fresh(handler) && fresh(handler.Owned())
      invariant handler.View() == phases[i]
      invariant auth == all[..i]
      invariant admitted <==> Admitted(auth)
    {
      var frames, clean := handler.OnStartup(startup[i].env, startup[i].msg);
      assert Delivered(startup[i], phases[i], phases[i + 1], all[i]);
      AdmittedStep(auth, frames);
      auth := auth + [frames];
      admitted := admitted || Sasl.AuthOk in frames;
    }
  }

  method Authenticate(startup: seq<Sasl.Delivery>) returns (auth: seq<seq<Sasl.Frame>>, admitted: bool)
    ensures auth == AuthFrames(Sasl.Idle, startup)
    ensures admitted <==> Admitted(auth)
  {
    ghost var phases := Trace(startup);
    auth, admitted := Exchange(startup, phases, AuthFrames(Sasl.Idle, startup));
  }

  class Slot {
    const backend: Backend
    const defaults: Table
    var prepared: Prepared

    constructor (defaults: Table, w: World, ok: World -> bool)
      ensures fresh(backend) && backend.commitOk == ok && View() == Fresh(defaults, w)
    {
      backend := new Backend(FreshWorld(defaults, w), ok);
      this.defaults := defaults;
      prepared := map[];
    }

    function View(): State
      reads this, backend
    {
      State(backend.pg, prepared, defaults)
    }

    /**
      `do_query`: the session's own setting picks the backend. A panic that escapes
      ends the process, whose exit hook aborts.
    */
    method DoQuery(text: QueryText) returns (r: QueryResult)
      requires Quiescent(backend.pg)
      modifies backend
      ensures Quiescent(backend.pg)
      ensures (Abstract(backend.pg), r)
              == Answer(Direct(old(backend.pg).working.settings), Abstract(old(backend.pg)), text, backend.commitOk)
    {
      if Direct(backend.pg.working.settings) {
        r := SimpleDirect.ExecuteSimpleQueryDirect(backend, text);
      } else {
        r := SpiBridge.ExecuteSimpleQuery(backend, text);
      }
      if r.Unwound? {
        backend.pg := AbortOutOfAny(backend.pg);
      }
    }

    method ServeMessages(msgs: seq<ClientMsg>) returns (results: seq<QueryResult>)
      requires Quiescent(backend.pg)
      modifies this, backend
      ensures Quiescent(backend.pg)
      ensures (View(), results) == Serve(old(View()), msgs, backend.commitOk)
    {
      results := [];
      ghost var goal := Serve(View(), msgs, backend.commitOk);
      assert msgs[0..] == msgs;
      AppendServed([], goal.1, goal.1);
      for i := 0 to |msgs|
        invariant Quiescent(backend.pg)
        invariant Served(goal, results, Serve(View(), msgs[i..], backend.commitOk))
      {
        assert msgs[i..][1..] == msgs[i + 1..];
        match msgs[i] {
          case Parse(update) =>
            prepared := update(prepared);
          case Simple(text) =>
            var r := DoQuery(text(prepared));
            ConcreteAbstract(backend.pg);
            ghost var tail := if r.Unwound? then [] else Serve(View(), msgs[i + 1..], backend.commitOk).1;
            AppendServed(results, [r], tail);
            results := results + [r];
            if r.Unwound? {
              return;
            }
        }
      }
      assert results + [] == results;
    }

    /** `PgwireV3::run`. */
    method ServeSession(s: Session) returns (reply: Reply)
      requires Quiescent(backend.pg)
      modifies this, backend
      ensures Quiescent(backend.pg)
      ensures (View(), reply) == RunSession(old(View()), s, backend.commitOk)
    {
      var auth, admitted := Authenticate(s.startup);
      var results := [];
      if admitted {
        results := ServeMessages(s.msgs);
      }
      reply := Reply(auth, results);
    }

    /** `reset_per_handoff_state`: abort first, then the two session registries. */
    method ResetPerHandoffState()
      modifies this, backend
      ensures View() == Reset(old(View()))
    {
      backend.pg := AbortOutOfAny(backend.pg);
      prepared := map[];
      var p := backend.pg;
      backend.pg := p.(committed := FreshWorld(defaults, p.committed), working := FreshWorld(defaults, p.working));
    }

    /** `run_slot`: announce readiness, then serve until drained, told to stop, or broken. */
    method RunSlot(ctrls: seq<Ctrl>, firstReadyOk: bool) returns (sent: seq<Op>, replies: seq<Reply>, handoffs: nat)
      requires Quiescent(backend.pg)
      modifies this, backend
      ensures if !firstReadyOk then sent == [] && replies == [] && View() == old(View())
              else Run(View(), sent, replies) == Behind([Ready], [], Loop(old(View()), ctrls, backend.commitOk))
      ensures handoffs == |replies|
    {
      sent, replies, handoffs := [], [], 0;
      if !firstReadyOk {
        return;
      }
      sent := [Ready];
      ghost var goal := Behind([Ready], [], Loop(View(), ctrls, backend.commitOk));
      assert ctrls[0..] == ctrls;
      for i := 0 to |ctrls|
        invariant Quiescent(backend.pg)
        invariant handoffs == |replies|
        invariant goal == Behind(sent, replies, Loop(View(), ctrls[i..], backend.commitOk))
      {
        assert ctrls[i..][1..] == ctrls[i + 1..];
        match ctrls[i] {
          case Timeout =>
          case FdHandoff(session, resetOk, readyOk) =>
            handoffs := handoffs + 1;
            var reply := ServeSession(session);
            if Died(reply) || !resetOk {
              replies := replies + [reply];
              assert sent + [] == sent;
              return;
            }
            ResetIsFresh(View());
            ResetPerHandoffState();
            if !readyOk {
              replies := replies + [reply];
              assert sent + [] == sent;
              return;
            }
            BehindTwice(sent, replies, [Ready], [reply], Loop(View(), ctrls[i + 1..], backend.commitOk));
            replies := replies + [reply];
            sent := sent + [Ready];
          case DrainRequest(ackOk) =>
            assert replies + [] == replies;
            if ackOk {
              sent := sent + [DrainAck];
            } else {
              assert sent + [] == sent;
            }
            return;
          case _ =>
            assert replies + [] == replies && sent + [] == sent;
            return;
        }
      }
      assert replies + [] == replies && sent + [] == sent;
    }
  }

  /** `goal` is what was served so far with the rest behind it. */
  predicate Served(goal: (State, seq<QueryResult>), results: seq<QueryResult>, rest: (State, seq<QueryResult>)) {
    goal == (rest.0, results + rest.1)
  }

  lemma AppendServed(results: seq<QueryResult>, more: seq<QueryResult>, tail: seq<QueryResult>)
    ensures results + (more + tail) == results + more + tail
    ensures [] + tail == tail && results + more + [] == results + more
  {
  }

  lemma AdmittedStep(auth: seq<seq<Sasl.Frame>>, frames: seq<Sasl.Frame>)
    ensures Admitted(auth + [frames]) <==> Admitted(auth) || Sasl.AuthOk in frames
  {
    var all := auth + [frames];
    if Admitted(auth) {
      var k :| 0 <= k < |auth| && Sasl.AuthOk in auth[k];
      assert all[k] == auth[k];
    }
    if Sasl.AuthOk in frames {
      assert all[|auth|] == frames;
    }
  }

  // ---------------------------------------------------------------------------
  // Isolation
  // ---------------------------------------------------------------------------

  /** The world committed when the i-th session of a run starts. */
  function CommittedBefore(v: State, sessions: seq<Session>, i: nat, ok: World -> bool): World
    requires i <= |sessions|
  {
    if i == 0 then v.pg.committed
    else RunSession(Fresh(v.defaults, CommittedBefore(v, sessions, i - 1, ok)), sessions[i - 1], ok).0.pg.committed
  }

  function SessionsOf(ctrls: seq<Ctrl>): seq<Session> {
    if ctrls == [] then []
    else if ctrls[0].FdHandoff? then [ctrls[0].session] + SessionsOf(ctrls[1..]) else SessionsOf(ctrls[1..])
  }

  lemma {:induction false} CommittedShift(v: State, w: State, s: Session, rest: seq<Session>, i: nat, ok: World -> bool)
    requires i <= |rest| && Unused(v) && w.defaults == v.defaults
    requires FreshWorld(v.defaults, w.pg.committed) == FreshWorld(v.defaults, RunSession(v, s, ok).0.pg.committed)
    ensures var d := v.defaults;
            Fresh(d, CommittedBefore(v, [s] + rest, i + 1, ok)) == Fresh(d, CommittedBefore(w, rest, i, ok))
  {
    if i > 0 {
      CommittedShift(v, w, s, rest, i - 1, ok);
      assert ([s] + rest)[i] == rest[i - 1];
    }
  }

  lemma {:induction false} OneReplyPerSession(v: State, ctrls: seq<Ctrl>, ok: World -> bool)
    ensures |Loop(v, ctrls, ok).replies| <= |SessionsOf(ctrls)|
    decreases |ctrls|
  {
    if ctrls != [] {
      match ctrls[0]
      case Timeout => OneReplyPerSession(v, ctrls[1..], ok);
      case FdHandoff(s, _, _) => OneReplyPerSession(Reset(RunSession(v, s, ok).0), ctrls[1..], ok);
      case _ =>
    }
  }

  /** The reply an unused process would give to the i-th client. */
  function IsolatedReply(v: State, sessions: seq<Session>, i: nat, ok: World -> bool): Reply
    requires i < |sessions|
  {
    RunSession(Fresh(v.defaults, CommittedBefore(v, sessions, i, ok)), sessions[i], ok).1
  }

  /**
    Whatever the earlier clients of a slot did, each client's replies are those of a
    process that has served nobody, over the world committed by then.
  */
  lemma {:induction false} SessionsIsolated(v: State, ctrls: seq<Ctrl>, ok: World -> bool, i: nat)
    requires Unused(v)
    requires i < |Loop(v, ctrls, ok).replies|
    ensures i < |SessionsOf(ctrls)|
    ensures Loop(v, ctrls, ok).replies[i] == IsolatedReply(v, SessionsOf(ctrls), i, ok)
    decreases |ctrls|
  {
    match ctrls[0]
    case Timeout =>
      SessionsIsolated(v, ctrls[1..], ok, i);
    case FdHandoff(s, resetOk, readyOk) =>
      assert SessionsOf(ctrls) == [s] + SessionsOf(ctrls[1..]);
      if i > 0 {
        var z := Reset(RunSession(v, s, ok).0);
        NextStartsFresh(v, s, ok);
        SessionsIsolated(z, ctrls[1..], ok, i - 1);
        CommittedShift(v, z, s, SessionsOf(ctrls[1..]), i - 1, ok);
      }
    case _ =>
  }

  /** What the next client meets is a fresh process over what this one committed. */
  lemma NextStartsFresh(v: State, s: Session, ok: World -> bool)
    requires Unused(v)
    ensures var w := RunSession(v, s, ok).0;
            var z := Reset(w);
            && Unused(z) && z.defaults == v.defaults
            && FreshWorld(v.defaults, z.pg.committed) == FreshWorld(v.defaults, w.pg.committed)
  {
    ServeQuiescent(v, s.msgs, ok);
    ResetIsFresh(RunSession(v, s, ok).0);
  }

  /** A process started from scratch over a database; its session has kept nothing yet. */
  function NewProcess(defaults: Table, db: Table): State { Fresh(defaults, World(db, defaults, map[])) }

  // ---------------------------------------------------------------------------
  // Against a new process
  // ---------------------------------------------------------------------------

  /** The loop has gone through all of `ctrls` and waits for more. */
  predicate Reads(v: State, ctrls: seq<Ctrl>, ok: World -> bool)
    decreases |ctrls|
  {
    ctrls == [] ||
    match ctrls[0]
    case Timeout => Reads(v, ctrls[1..], ok)
    case FdHandoff(s, resetOk, readyOk) =>
      var (w, reply) := RunSession(v, s, ok);
      !Died(reply) && resetOk && readyOk && Reads(Reset(w), ctrls[1..], ok)
    case _ => false
  }

  /** The client that comes next is served from the state the loop is in, which is fresh over what was committed. */
  lemma {:induction false} LoopOneMore(v: State, ctrls: seq<Ctrl>, c: Session, ok: World -> bool)
    requires Unused(v) && Reads(v, ctrls, ok)
    ensures var run := Loop(v, ctrls, ok);
            && Unused(run.view) && run.view.defaults == v.defaults
            && Loop(v, ctrls + [FdHandoff(c, true, true)], ok).replies == run.replies + [RunSession(run.view, c, ok).1]
    decreases |ctrls|
  {
    var more := ctrls + [FdHandoff(c, true, true)];
    if ctrls == [] {
      assert more == [FdHandoff(c, true, true)] && more[1..] == [];
    } else {
      assert more[0] == ctrls[0] && more[1..] == ctrls[1..] + [FdHandoff(c, true, true)];
      match ctrls[0]
      case Timeout => LoopOneMore(v, ctrls[1..], c, ok);
      case FdHandoff(s, _, _) =>
        NextStartsFresh(v, s, ok);
        LoopOneMore(Reset(RunSession(v, s, ok).0), ctrls[1..], c, ok);
    }
  }

  /** What the next client sees, after any history of the slot. */
  function NextReply(v: State, ctrls: seq<Ctrl>, c: Session, ok: World -> bool): Reply
    requires Unused(v) && Reads(v, ctrls, ok)
  {
    LoopOneMore(v, ctrls, c, ok);
    var replies := Loop(v, ctrls + [FdHandoff(c, true, true)], ok).replies;
    replies[|replies| - 1]
  }

  /** No client, whatever it sends, can tell the slot from a process started from scratch over the same database. */
  ghost predicate LikeNew(v: State, ctrls: seq<Ctrl>, ok: World -> bool)
    requires Unused(v) && Reads(v, ctrls, ok)
  {
    forall c: Session ::
      NextReply(v, ctrls, c, ok)
      == RunSession(NewProcess(v.defaults, Loop(v, ctrls, ok).view.pg.committed.db), c, ok).1
  }

  /**
    Isolation, exactly: after any control history the next client is served as by a
    new process, whatever it sends, if and only if the earlier sessions left nothing
    committed of what the reset does not touch.
  */
  lemma IsolationExact(v: State, ctrls: seq<Ctrl>, ok: World -> bool)
    requires Unused(v) && Reads(v, ctrls, ok)
    ensures LikeNew(v, ctrls, ok) <==> Loop(v, ctrls, ok).view.pg.committed.local == map[]
  {
    var w := Loop(v, ctrls, ok).view;
    var anew := NewProcess(v.defaults, w.pg.committed.db);
    forall c: Session ensures NextReply(v, ctrls, c, ok) == RunSession(w, c, ok).1 {
      LoopOneMore(v, ctrls, c, ok);
    }
    LoopOneMore(v, ctrls, Probing(), ok);
    if LikeNew(v, ctrls, ok) {
      assert NextReply(v, ctrls, Probing(), ok) == RunSession(anew, Probing(), ok).1;
      ProbeTells(w, ok);
      ProbeTells(anew, ok);
    }
  }

  const ZERO: Digest := seq(32, _ => 0)

  /** A client the catalog lets in without a password. */
  function Trusted(): Sasl.Delivery {
    var crypto := Crypto((_: seq<byte>, _: string) => ZERO, (_: seq<byte>) => ZERO);
    Sasl.Delivery(Sasl.Env(crypto, (_: string) => NoPassword, None, 1), Sasl.Startup(true, Some("u"), Some("postgres")))
  }

  /** A query of one statement. */
  function OneStatement(s: Stmt): ClientMsg { Simple((_: Prepared) => Parsed([s])) }

  /** One plain statement on whichever backend the settings pick. */
  lemma OneReply(v: State, s: Stmt, ok: World -> bool)
    requires Quiescent(v.pg) && v.pg.block != Abort && s.Plain? && s.connects && s.finishes
    ensures var (a, r) := PlainOne(Abstract(v.pg), s.run(v.pg.working), ok);
            Serve(v, [OneStatement(s)], ok) == (v.(pg := Concrete(a)), [r])
  {
    var msgs, a := [OneStatement(s)], Abstract(v.pg);
    BatchTheorems.SpiSeqOne(a, s, ok);
    var q := PlainOne(a, s.run(v.pg.working), ok);
    assert SpiOutcome(s, a.cur) == s.run(v.pg.working);
    assert Query(true, a, [s], ok) == q && Query(false, a, [s], ok) == q;
    assert msgs[0].text(v.prepared) == Parsed([s]) && msgs[1..] == [];
    assert Answer(Direct(v.pg.working.settings), a, Parsed([s]), ok) == q;
    var after := v.(pg := Concrete(q.0));
    assert Serve(after, msgs[1..], ok) == (after, []);
    assert [q.1] + [] == [q.1];
  }

  /** A statement that fails exactly where an earlier session left something. */
  function Probe(): Stmt { Plain(true, (w: World) => if w.local == map[] then Done(w, "new") else Raise, true, true) }

  function Probing(): Session { Session.Session([Trusted()], [OneStatement(Probe())]) }

  lemma TrustedIsAdmitted()
    ensures Admitted(AuthFrames(Sasl.Idle, [Trusted()]))
  {
    var run := [Trusted()];
    assert run[..0] == [];
    assert Sasl.ReplyAt(Sasl.Idle, run, 0).frames == [Sasl.AuthOk];
    assert Sasl.AuthOk in AuthFrames(Sasl.Idle, run)[0];
  }

  lemma ProbeTells(v: State, ok: World -> bool)
    requires Unused(v)
    ensures RunSession(v, Probing(), ok).1.results == [Failed(ServerError)] <==> v.pg.committed.local != map[]
  {
    TrustedIsAdmitted();
    OneReply(v, Probe(), ok);
  }

  function MakeTemp(): Stmt { Plain(true, (w: World) => Done(w.(local := w.local["t" := "t"]), "CREATE"), true, true) }

  function SeeTemp(): Stmt { Plain(true, (w: World) => if "t" in w.local then Done(w, "1") else Raise, true, true) }

  /** One client's temporary table is visible to the next client of the slot. */
  lemma TemporaryObjectsLeak(defaults: Table, db: Table)
    ensures var ok := (_: World) => true;
            var see, anew := [OneStatement(SeeTemp())], NewProcess(defaults, db);
            var left := Serve(anew, [OneStatement(MakeTemp())], ok).0;
            && Serve(Reset(left), see, ok).1 == [Replies(["1"])]
            && Serve(anew, see, ok).1 == [Failed(ServerError)]
  {
    var ok := (_: World) => true;
    var anew := NewProcess(defaults, db);
    OneReply(anew, MakeTemp(), ok);
    OneReply(anew, SeeTemp(), ok);
    var left := Serve(anew, [OneStatement(MakeTemp())], ok).0;
    assert "t" in left.pg.committed.local;
    OneReply(Reset(left), SeeTemp(), ok);
  }

  // ---------------------------------------------------------------------------
  // What the slot sends
  // ---------------------------------------------------------------------------

  /** Ready bytes match the sessions, up to the one that ended the slot, and nothing follows a drain ack. */
  predicate Shaped(r: Run) {
    var readies := if r.sent != [] && r.sent[|r.sent| - 1] == DrainAck then |r.sent| - 1 else |r.sent|;
    && (forall i :: 0 <= i < |r.sent| && r.sent[i] == DrainAck ==> i == |r.sent| - 1)
    && readies <= |r.replies| <= readies + (if readies < |r.sent| then 0 else 1)
  }

  lemma BehindShaped(reply: Reply, r: Run)
    requires Shaped(r)
    ensures Shaped(Behind([Ready], [reply], r))
  {
    var sent := [Ready] + r.sent;
    assert r.sent == [] ==> sent == [Ready];
    assert forall i :: 0 < i < |sent| ==> sent[i] == r.sent[i - 1];
  }

  /** What a slot sends behind its first announcement has this shape, over any control sequence. */
  lemma {:induction false} SentShape(v: State, ctrls: seq<Ctrl>, ok: World -> bool)
    ensures Shaped(Loop(v, ctrls, ok))
    decreases |ctrls|
  {
    if ctrls != [] {
      match ctrls[0]
      case Timeout => SentShape(v, ctrls[1..], ok);
      case FdHandoff(s, resetOk, readyOk) =>
        var (w, reply) := RunSession(v, s, ok);
        if !Died(reply) && resetOk && readyOk {
          SentShape(Reset(w), ctrls[1..], ok);
          BehindShaped(reply, Loop(Reset(w), ctrls[1..], ok));
        }
      case _ =>
    }
  }
}
