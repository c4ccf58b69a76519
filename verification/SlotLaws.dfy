/**
  What a slot does for whom: a client that was not admitted gets nothing served and
  leaves no trace, an admitted one is served message by message on the backend its
  setting names, and every way the control loop can end sends exactly what it should.
*/
module SlotLaws {
  import opened SlotProcess
  import opened Xact
  import Admission
  import BatchTheorems
  import B = BatchSpec
  import Sasl

  // ---------------------------------------------------------------------------
  // The control loop, piece by piece
  // ---------------------------------------------------------------------------

  lemma BehindNone(r: Run)
    ensures Behind([], [], r) == r
  {
    assert [] + r.sent == r.sent && [] + r.replies == r.replies;
  }

  /** What the loop does with a control sequence it read through carries over to what comes behind it. */
  lemma {:induction false} LoopComposes(v: State, xs: seq<Ctrl>, ys: seq<Ctrl>, ok: World -> bool)
    requires Reads(v, xs, ok)
    ensures var p := Loop(v, xs, ok);
            Loop(v, xs + ys, ok) == Behind(p.sent, p.replies, Loop(p.view, ys, ok))
    decreases |xs|
  {
    if xs == [] {
      assert xs + ys == ys;
      BehindNone(Loop(v, ys, ok));
    } else {
      assert (xs + ys)[0] == xs[0] && (xs + ys)[1..] == xs[1..] + ys;
      match xs[0]
      case Timeout => LoopComposes(v, xs[1..], ys, ok);
      case FdHandoff(s, _, _) =>
        var (w, reply) := RunSession(v, s, ok);
        var p := Loop(Reset(w), xs[1..], ok);
        LoopComposes(Reset(w), xs[1..], ys, ok);
        BehindTwice([Ready], [reply], p.sent, p.replies, Loop(p.view, ys, ok));
    }
  }

  /** Every session the loop reads through is answered, and followed by one ready byte. */
  lemma {:induction false} ReadyPerSession(v: State, xs: seq<Ctrl>, ok: World -> bool)
    requires Reads(v, xs, ok)
    ensures var p, n := Loop(v, xs, ok), |SessionsOf(xs)|;
            |p.sent| == n && |p.replies| == n && forall i :: 0 <= i < n ==> p.sent[i] == Ready
    decreases |xs|
  {
    if xs != [] {
      match xs[0]
      case Timeout => ReadyPerSession(v, xs[1..], ok);
      case FdHandoff(s, _, _) => ReadyPerSession(Reset(RunSession(v, s, ok).0), xs[1..], ok);
    }
  }

  /** A drain request is answered by the ack, if that can be sent, and nothing behind it is looked at. */
  lemma DrainAnswered(v: State, xs: seq<Ctrl>, ackOk: bool, ys: seq<Ctrl>, ok: World -> bool)
    requires Reads(v, xs, ok)
    ensures var p := Loop(v, xs, ok);
            Loop(v, xs + ([DrainRequest(ackOk)] + ys), ok)
            == Run(p.view, p.sent + (if ackOk then [DrainAck] else []), p.replies)
  {
    LoopComposes(v, xs, [DrainRequest(ackOk)] + ys, ok);
    assert Loop(v, xs, ok).replies + [] == Loop(v, xs, ok).replies;
  }

  /** A closed socket, a signal and a receive error end the loop without another byte. */
  lemma EndsSilently(v: State, xs: seq<Ctrl>, end: Ctrl, ys: seq<Ctrl>, ok: World -> bool)
    requires Reads(v, xs, ok) && end in {Eof, Sigterm, RecvError}
    ensures Loop(v, xs + ([end] + ys), ok) == Loop(v, xs, ok)
  {
    var p := Loop(v, xs, ok);
    LoopComposes(v, xs, [end] + ys, ok);
    assert p.replies + [] == p.replies && p.sent + [] == p.sent;
  }

  /** A session that dies, or whose reset or ready byte fails, is the last: its reply is all that is added. */
  lemma BrokenSessionIsLast(v: State, xs: seq<Ctrl>, s: Session, resetOk: bool, readyOk: bool, ys: seq<Ctrl>,
                            ok: World -> bool)
    requires Reads(v, xs, ok)
    requires var p := Loop(v, xs, ok); Died(RunSession(p.view, s, ok).1) || !resetOk || !readyOk
    ensures var p, q := Loop(v, xs, ok), Loop(v, xs + ([FdHandoff(s, resetOk, readyOk)] + ys), ok);
            q.sent == p.sent && q.replies == p.replies + [RunSession(p.view, s, ok).1]
  {
    var p := Loop(v, xs, ok);
    LoopComposes(v, xs, [FdHandoff(s, resetOk, readyOk)] + ys, ok);
    assert p.sent + [] == p.sent;
  }

  // ---------------------------------------------------------------------------
  // Who is served
  // ---------------------------------------------------------------------------

  /** No answer of the startup exchange admits the client. */
  predicate TurnedAway(s: Session) {
    forall k :: 0 <= k < |s.startup| ==> Sasl.AuthOk !in Sasl.ReplyAt(Sasl.Idle, s.startup, k).frames
  }

  lemma AdmittedWhen(s: Session)
    ensures Admitted(AuthFrames(Sasl.Idle, s.startup)) <==> !TurnedAway(s)
  {
    var auth := AuthFrames(Sasl.Idle, s.startup);
    assert forall k :: 0 <= k < |auth| ==> auth[k] == Sasl.ReplyAt(Sasl.Idle, s.startup, k).frames;
  }

  /** A client the exchange did not admit has no message served and changes nothing. */
  lemma NotAdmitted(v: State, s: Session, ok: World -> bool)
    requires TurnedAway(s)
    ensures RunSession(v, s, ok).0 == v && RunSession(v, s, ok).1.results == []
  {
    AdmittedWhen(s);
  }

  /**
    The whole way in: a client's queries run exactly if at some point of its startup the
    catalog asked no password of it, or it completed an exchange; and they run all or
    not at all.
  */
  lemma ServedExactly(v: State, s: Session, ok: World -> bool)
    ensures var (w, reply) := RunSession(v, s, ok);
            var earned := exists k :: 0 <= k < |s.startup| && Admission.Earned(s.startup, k);
            (w, reply.results) == if earned then Serve(v, s.msgs, ok) else (v, [])
  {
    AdmittedWhen(s);
    forall k | 0 <= k < |s.startup|
      ensures Sasl.AuthOk in Sasl.ReplyAt(Sasl.Idle, s.startup, k).frames <==> Admission.Earned(s.startup, k)
    {
      Admission.AdmissionExact(s.startup, k);
    }
  }

  lemma UnusedStays(v: State)
    requires Unused(v)
    ensures Reset(v) == v
  {
    ResetIsFresh(v);
  }

  /**
    Wherever in a slot's life a client is turned away, everybody else is served as if
    it had never come: the slot is in the same state, and all that is added is that
    client's own answer, without a single result, and one more ready byte.
  */
  lemma StrangerLeavesNoTrace(v: State, xs: seq<Ctrl>, s: Session, ys: seq<Ctrl>, ok: World -> bool)
    requires Unused(v) && Reads(v, xs, ok) && TurnedAway(s)
    ensures var p := Loop(v, xs, ok);
            var q := Loop(p.view, ys, ok);
            var with := Loop(v, xs + ([FdHandoff(s, true, true)] + ys), ok);
            && Loop(v, xs + ys, ok) == Behind(p.sent, p.replies, q)
            && with.view == Loop(v, xs + ys, ok).view
            && with.sent == p.sent + ([Ready] + q.sent)
            && |with.replies| == |p.replies| + 1 + |q.replies|
            && with.replies[..|p.replies|] == p.replies && with.replies[|p.replies| + 1..] == q.replies
            && with.replies[|p.replies|].results == []
  {
    var p := Loop(v, xs, ok);
    LoopOneMore(v, xs, s, ok);
    UnusedStays(p.view);
    NotAdmitted(p.view, s, ok);
    LoopComposes(v, xs, ys, ok);
    var tail := [FdHandoff(s, true, true)] + ys;
    LoopComposes(v, xs, tail, ok);
    assert tail[1..] == ys;
    var reply := RunSession(p.view, s, ok).1;
    assert Loop(p.view, tail, ok) == Behind([Ready], [reply], Loop(p.view, ys, ok));
  }

  lemma {:induction false} ReadsComposes(v: State, xs: seq<Ctrl>, ys: seq<Ctrl>, ok: World -> bool)
    requires Reads(v, xs, ok)
    ensures Reads(v, xs + ys, ok) <==> Reads(Loop(v, xs, ok).view, ys, ok)
    decreases |xs|
  {
    if xs == [] {
      assert xs + ys == ys;
    } else {
      assert (xs + ys)[0] == xs[0] && (xs + ys)[1..] == xs[1..] + ys;
      match xs[0]
      case Timeout => ReadsComposes(v, xs[1..], ys, ok);
      case FdHandoff(s, _, _) => ReadsComposes(Reset(RunSession(v, s, ok).0), xs[1..], ys, ok);
    }
  }

  /** In particular the next client is answered the same with and without a stranger in front of it. */
  lemma StrangerBeforeNext(v: State, xs: seq<Ctrl>, s: Session, c: Session, ok: World -> bool)
    requires Unused(v) && Reads(v, xs, ok) && TurnedAway(s)
    ensures Reads(v, xs + [FdHandoff(s, true, true)], ok)
    ensures NextReply(v, xs + [FdHandoff(s, true, true)], c, ok) == NextReply(v, xs, c, ok)
  {
    var with := xs + [FdHandoff(s, true, true)];
    var p := Loop(v, xs, ok);
    NotAdmitted(p.view, s, ok);
    ReadsComposes(v, xs, [FdHandoff(s, true, true)], ok);
    assert [FdHandoff(s, true, true)][1..] == [];
    StrangerLeavesNoTrace(v, xs, s, [], ok);
    assert [FdHandoff(s, true, true)] + [] == [FdHandoff(s, true, true)] && xs + [] == xs;
    LoopOneMore(v, xs, c, ok);
    LoopOneMore(v, with, c, ok);
  }

  // ---------------------------------------------------------------------------
  // What stays between clients
  // ---------------------------------------------------------------------------

  /** The reset keeps what was committed and what is local to the process; all else is as configured or empty. */
  lemma ResetKeepsData(v: State)
    ensures var w := World(v.pg.committed.db, v.defaults, v.pg.committed.local);
            Reset(v) == State(Pg(DefaultBlock, w, w, 0, 0), map[], v.defaults)
  {
    ResetIsFresh(v);
  }

  /** The next client finds in the database exactly what the last one committed, over any history. */
  lemma CommittedIsSeen(v: State, xs: seq<Ctrl>, s: Session, ok: World -> bool)
    requires Unused(v) && Reads(v, xs, ok) && !Died(RunSession(Loop(v, xs, ok).view, s, ok).1)
    ensures var left := RunSession(Loop(v, xs, ok).view, s, ok).0.pg.committed;
            var w := World(left.db, v.defaults, left.local);
            Loop(v, xs + [FdHandoff(s, true, true)], ok).view == State(Pg(DefaultBlock, w, w, 0, 0), map[], v.defaults)
  {
    var p := Loop(v, xs, ok);
    LoopOneMore(v, xs, s, ok);
    LoopComposes(v, xs, [FdHandoff(s, true, true)], ok);
    assert [FdHandoff(s, true, true)][1..] == [];
    NextStartsFresh(p.view, s, ok);
    ResetKeepsData(RunSession(p.view, s, ok).0);
    ServeQuiescent(p.view, s.msgs, ok);
  }

  // ---------------------------------------------------------------------------
  // How it is served
  // ---------------------------------------------------------------------------

  predicate Panicked(results: seq<QueryResult>) { results != [] && results[|results| - 1].Unwound? }

  /** Messages are served one after another, each in the state the last one left, up to a panic. */
  lemma {:induction false} ServeComposes(v: State, xs: seq<ClientMsg>, ys: seq<ClientMsg>, ok: World -> bool)
    ensures var (w, rs) := Serve(v, xs, ok);
            var (z, more) := Serve(w, ys, ok);
            Serve(v, xs + ys, ok) == if Panicked(rs) then (w, rs) else (z, rs + more)
    decreases |xs|
  {
    if xs == [] {
      assert xs + ys == ys;
      assert [] + Serve(v, ys, ok).1 == Serve(v, ys, ok).1;
    } else {
      assert (xs + ys)[0] == xs[0] && (xs + ys)[1..] == xs[1..] + ys;
      match xs[0]
      case Parse(update) => ServeComposes(v.(prepared := update(v.prepared)), xs[1..], ys, ok);
      case Simple(text) =>
        var (a, r) := B.Answer(Direct(v.pg.working.settings), B.Abstract(v.pg), text(v.prepared), ok);
        var u := v.(pg := Concrete(a));
        ServeComposes(u, xs[1..], ys, ok);
        var rs := Serve(u, xs[1..], ok).1;
        var more := Serve(Serve(u, xs[1..], ok).0, ys, ok).1;
        assert [r] + (rs + more) == [r] + rs + more;
        assert rs != [] ==> ([r] + rs)[|rs|] == rs[|rs| - 1];
    }
  }

  predicate SaysDirect(settings: Table) {
    "pg_transport.execution_backend" in settings && settings["pg_transport.execution_backend"] == "direct"
  }

  /** A query runs on the backend the session's setting names when it arrives, with what was prepared by then. */
  lemma QueryServed(v: State, text: Prepared -> B.QueryText, ok: World -> bool)
    requires Quiescent(v.pg)
    ensures var (a, r) := B.Answer(SaysDirect(v.pg.working.settings), B.Abstract(v.pg), text(v.prepared), ok);
            var (w, rs) := Serve(v, [Simple(text)], ok);
            && rs == [r] && w.prepared == v.prepared && w.defaults == v.defaults
            && Quiescent(w.pg) && B.Abstract(w.pg) == a
  {
    var (a, r) := B.Answer(Direct(v.pg.working.settings), B.Abstract(v.pg), text(v.prepared), ok);
    var u := v.(pg := Concrete(a));
    BatchTheorems.QuerySound(Direct(v.pg.working.settings), B.Abstract(v.pg), text(v.prepared), ok);
    assert [Simple(text)][1..] == [];
    assert Serve(u, [], ok) == (u, []);
    assert [r] + [] == [r];
  }


  /** What a session prepares, its later queries use, until the session's end. */
  lemma PreparedIsUsed(v: State, update: Prepared -> Prepared, text: Prepared -> B.QueryText, ok: World -> bool)
    requires Quiescent(v.pg)
    ensures var (a, r) := B.Answer(SaysDirect(v.pg.working.settings), B.Abstract(v.pg), text(update(v.prepared)), ok);
            var (w, rs) := Serve(v, [Parse(update), Simple(text)], ok);
            && rs == [r] && w.prepared == update(v.prepared) && B.Abstract(w.pg) == a
            && Reset(w).prepared == map[]
  {
    var msgs := [Parse(update), Simple(text)];
    assert msgs[1..] == [Simple(text)];
    QueryServed(v.(prepared := update(v.prepared)), text, ok);
  }
}
