/** The direct backend: `execute_simple_query_direct`, its single-statement bracket and its batch loop. */
module SimpleDirect {
  import opened Xact
  import opened BatchSpec
  import opened Drivers

  predicate CanRun(p: Pg, s: Stmt) {
    p.block in {Started, ImplicitInProgress, InProgress, Abort} && (p.block == Abort ==> IsExit(s))
  }

  /** The server's answer to one statement, and the state it leaves. */
  function Executed(p: Pg, s: Stmt): (Pg, Body)
    requires CanRun(p, s)
  {
    match s
    case Plain(_, run, _, _) =>
      (match run(p.working)
       case Done(w, r) => (p.(working := w), BodyOk([r]))
       case Typed(w) => (p.(working := w), BodyErr(TypedError))
       case Raise => (p, BodyPanic))
    case Ctl(BeginStmt) => (BeginBlock(p), BodyOk(["BEGIN"]))
    case Ctl(CommitStmt) => (EndBlock(p), BodyOk([if p.block == Abort then "ROLLBACK" else "COMMIT"]))
    case Ctl(RollbackStmt) => (UserAbort(p), BodyOk(["ROLLBACK"]))
  }

  /** Analyze, plan and run one statement through a portal; transaction statements go to the server's own code. */
  method RunOneDirect(b: Backend, s: Stmt) returns (o: Body)
    requires CanRun(b.pg, s)
    modifies b
    ensures (b.pg, o) == Executed(old(b.pg), s)
  {
    match s
    case Plain(_, run, _, _) =>
      match run(b.pg.working) {
        case Done(w, r) =>
          b.pg := b.pg.(working := w);
          o := BodyOk([r]);
        case Typed(w) =>
          b.pg := b.pg.(working := w);
          o := BodyErr(TypedError);
        case Raise =>
          o := BodyPanic;
      }
    case Ctl(c) =>
      match c {
        case BeginStmt =>
          b.pg := BeginBlock(b.pg);
          o := BodyOk(["BEGIN"]);
        case CommitStmt =>
          o := BodyOk([if IsAborted(b.pg) then "ROLLBACK" else "COMMIT"]);
          b.pg := EndBlock(b.pg);
        case RollbackStmt =>
          b.pg := UserAbort(b.pg);
          o := BodyOk(["ROLLBACK"]);
      }
  }

  predicate NeedsSnapshot(s: Stmt) { s.Plain? && s.needsSnapshot }

  /** A snapshot is pushed only if the statement needs one; an error raised by the statement leaves it to the abort. */
  method RunUnderSnapshot(b: Backend, s: Stmt) returns (o: Body)
    requires CanRun(b.pg, s) && b.pg.snapshots == 0
    modifies b
    ensures var (p, q) := Executed(old(b.pg), s);
            o == q && b.pg == if q.BodyPanic? && NeedsSnapshot(s) then PushSnapshot(p) else p
  {
    if NeedsSnapshot(s) {
      b.pg := PushSnapshot(b.pg);
    }
    o := RunOneDirect(b, s);
    if NeedsSnapshot(s) && !o.BodyPanic? {
      b.pg := PopSnapshot(b.pg);
    }
  }

  /** The state a statement of the batch runs in, and where it leaves the block states behind it. */
  function Ready(p: Pg): Pg
    requires p.block in {DefaultBlock, ImplicitInProgress, InProgress, Abort}
  {
    BeginImplicit(Start(p))
  }

  /** The commit or command-counter step behind a statement, and whether it went through. */
  function Boundary(p: Pg, s: Stmt, last: bool, ok: World -> bool): (Pg, bool)
    requires p.block != DefaultBlock && p.snapshots == 0 && p.spi == 0
  {
    var e := if last then EndImplicit(p) else p;
    if !last && s.Plain? then (e, true)
    else if Commits(e) ==> ok(e.working) then (Commit(e), true)
    else (e, false)
  }

  method StepBoundary(b: Backend, s: Stmt, last: bool) returns (fine: bool)
    requires b.pg.block != DefaultBlock && b.pg.snapshots == 0 && b.pg.spi == 0
    modifies b
    ensures (b.pg, fine) == Boundary(old(b.pg), s, last, b.commitOk)
  {
    if last {
      b.pg := EndImplicit(b.pg);
    }
    fine := true;
    if last || s.Ctl? {
      fine := CommitTransactionCommand(b);
    }
  }

  lemma PlainMeans(p: Pg, a: Session, s: Stmt, last: bool, ok: World -> bool)
    requires Mid(p, a) && s.Plain? && a.mode != FailedBlock
    ensures var (q, o) := Executed(Ready(p), s);
            if o.BodyOk? then
              var (e, fine) := Boundary(q, s, last, ok);
              IterationMeans(e, if fine then o else BodyPanic, a, s, last, ok)
            else IterationMeans(q, o, a, s, last, ok) && IterationMeans(PushSnapshot(q), o, a, s, last, ok)
  {
  }

  lemma ControlMeans(p: Pg, a: Session, s: Stmt, last: bool, ok: World -> bool)
    requires Mid(p, a) && s.Ctl? && (a.mode == FailedBlock ==> IsExit(s))
    ensures var (q, o) := Executed(Ready(p), s);
            var (e, fine) := Boundary(q, s, last, ok);
            o.BodyOk? && IterationMeans(e, if fine then o else BodyPanic, a, s, last, ok)
  {
  }

  /** One pass through the batch loop, from the aborted-block check to the commit or command-counter step. */
  method Iteration(b: Backend, s: Stmt, last: bool, ghost a: Session) returns (o: Body)
    requires Mid(b.pg, a)
    modifies b
    ensures IterationMeans(b.pg, o, a, s, last, b.commitOk)
  {
    if IsAborted(b.pg) && !IsExit(s) {
      return BodyErr(InFailedBlock);
    }
    ghost var p := b.pg;
    assert s.Plain? ==> a.mode != FailedBlock;
    b.pg := BeginImplicit(Start(b.pg));
    o := RunUnderSnapshot(b, s);
    if o.BodyOk? {
      var fine := StepBoundary(b, s, last);
      if !fine {
        o := BodyPanic;
      }
    }
    if s.Plain? {
      PlainMeans(p, a, s, last, b.commitOk);
    } else {
      ControlMeans(p, a, s, last, b.commitOk);
    }
  }

  /** The closure under `catch_unwind`: stops at the first error. */
  method BatchBody(b: Backend, stmts: seq<Stmt>) returns (o: Body)
    requires |stmts| > 0 && Quiescent(b.pg)
    modifies b
    ensures var (c, r) := Fold(Abstract(old(b.pg)), stmts, b.commitOk);
            match o
            case BodyOk(rs) => r == Replies(rs) && Quiescent(b.pg) && Abstract(b.pg) == c
            case _ => r == Failed(ErrorOf(o)) && AbortsTo(b.pg, c)
  {
    var responses := [];
    ghost var a := Abstract(b.pg);
    assert stmts[0..] == stmts;
    PrefixNone(Fold(a, stmts, b.commitOk));
    for i := 0 to |stmts|
      invariant i < |stmts| ==> Mid(b.pg, a)
      invariant i == |stmts| ==> Quiescent(b.pg) && Abstract(b.pg) == a
      invariant Fold(Abstract(old(b.pg)), stmts, b.commitOk) == Prefix(responses, Fold(a, stmts[i..], b.commitOk))
    {
      ghost var rest := stmts[i..];
      assert rest[1..] == stmts[i + 1..];
      ghost var next := BatchStep(a, stmts[i], i == |stmts| - 1, b.commitOk);
      o := Iteration(b, stmts[i], i == |stmts| - 1, a);
      if !o.BodyOk? {
        return;
      }
      PrefixTwice(responses, o.resps, Fold(next.0, stmts[i + 1..], b.commitOk));
      responses := responses + o.resps;
      a := next.0;
    }
    o := BodyOk(responses);
  }

  /** `execute_with_implicit_block`: any error or panic out of the body is answered by an abort. */
  method ExecuteWithImplicitBlock(b: Backend, stmts: seq<Stmt>) returns (r: QueryResult)
    requires |stmts| > 0 && Quiescent(b.pg)
    modifies b
    ensures Quiescent(b.pg)
    ensures (Abstract(b.pg), r) == Batch(Abstract(old(b.pg)), stmts, b.commitOk)
    ensures !r.Unwound?
  {
    FoldIsBatch(Abstract(b.pg), stmts, b.commitOk);
    var o := BatchBody(b, stmts);
    match o
    case BodyOk(rs) =>
      r := Replies(rs);
    case BodyErr(e) =>
      b.pg := AbortCurrent(b.pg);
      r := Failed(e);
    case BodyPanic =>
      b.pg := AbortCurrent(b.pg);
      r := Failed(ServerError);
  }

  /** `with_xact`: the final commit stands outside the catch, so an error raised there takes the process down. */
  method WithXact(b: Backend, s: Stmt) returns (r: QueryResult)
    requires Quiescent(b.pg) && (b.pg.block == Abort ==> IsExit(s))
    modifies b
    ensures Leaves(b.pg, r, DirectOne(Abstract(old(b.pg)), s, b.commitOk))
  {
    b.pg := Start(b.pg);
    var o := RunUnderSnapshot(b, s);
    if o.BodyPanic? {
      b.pg := AbortCurrent(b.pg);
      return Failed(ServerError);
    }
    var fine := CommitTransactionCommand(b);
    if !fine {
      return Unwound;
    }
    r := if o.BodyOk? then Replies(o.resps) else Failed(o.error);
  }

  /** The entry point: text that does not parse is turned away before any block call. */
  method ExecuteSimpleQueryDirect(b: Backend, text: QueryText) returns (r: QueryResult)
    requires Quiescent(b.pg)
    modifies b
    ensures Leaves(b.pg, r, Answer(true, Abstract(old(b.pg)), text, b.commitOk))
  {
    if text.Unparsed? {
      return Failed(text.error);
    }
    var stmts := text.stmts;
    if |stmts| > 1 {
      r := ExecuteWithImplicitBlock(b, stmts);
    } else if |stmts| == 1 {
      if IsAborted(b.pg) && !IsExit(stmts[0]) {
        return Failed(InFailedBlock);
      }
      r := WithXact(b, stmts[0]);
    } else {
      r := Replies([]);
    }
  }
}
