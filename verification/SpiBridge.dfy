/** The SPI backend: statement dispatch, the `with_spi` bracket, the transaction-control bypass and the batch loop. */
module SpiBridge {
  import opened Xact
  import opened BatchSpec
  import opened Drivers

  /** One statement between SPI_connect and SPI_finish, inside an open transaction that holds a snapshot. */
  method SpiSession(b: Backend, s: Stmt) returns (o: Body)
    requires s.Plain?
    modifies b
    ensures match SpiOutcome(s, old(b.pg).working)
            case Done(w, r) => o == BodyOk([r]) && b.pg == old(b.pg).(working := w)
            case Typed(w) => o == BodyErr(TypedError) && b.pg == old(b.pg).(working := w)
            case Raise => o == BodyPanic && b.pg == SpiConnect(old(b.pg))
  {
    if !s.connects {
      return BodyErr(TypedError);
    }
    b.pg := SpiConnect(b.pg);
    match s.run(b.pg.working)
    case Raise =>
      o := BodyPanic;
    case Typed(w) =>
      b.pg := SpiFinish(b.pg.(working := w));
      o := BodyErr(TypedError);
    case Done(w, r) =>
      b.pg := SpiFinish(b.pg.(working := w));
      o := if s.finishes then BodyOk([r]) else BodyErr(TypedError);
  }

  /** `with_spi`: typed errors commit, only a panic aborts; the commit stands outside the catch. */
  method WithSpi(b: Backend, s: Stmt) returns (r: QueryResult)
    requires s.Plain? && Quiescent(b.pg) && b.pg.block != Abort
    modifies b
    ensures Leaves(b.pg, r, SpiOne(Abstract(old(b.pg)), s, b.commitOk))
  {
    b.pg := PushSnapshot(Start(b.pg));
    var o := SpiSession(b, s);
    if o.BodyPanic? {
      b.pg := AbortCurrent(b.pg);
      return Failed(ServerError);
    }
    b.pg := PopSnapshot(b.pg);
    var fine := CommitTransactionCommand(b);
    if !fine {
      return Unwound;
    }
    r := if o.BodyOk? then Replies(o.resps) else Failed(o.error);
  }

  /** `handle_xact_control_one`: the block calls go to the server directly, under their own catch. */
  method HandleXactControl(b: Backend, c: Control) returns (r: QueryResult)
    requires Quiescent(b.pg) && (b.pg.block == Abort ==> c != BeginStmt)
    modifies b
    ensures Quiescent(b.pg)
    ensures (Abstract(b.pg), r) == SpiControl(Abstract(old(b.pg)), c, b.commitOk)
  {
    var inBlock := IsTransactionBlock(b.pg);
    var fine := true;
    match c {
      case BeginStmt =>
        if inBlock {
          return Replies(["BEGIN"]);
        }
        b.pg := BeginBlock(Start(b.pg));
        r := Replies(["BEGIN"]);
      case CommitStmt =>
        if !inBlock {
          return Replies(["COMMIT"]);
        }
        b.pg := EndBlock(Start(b.pg));
        r := Replies(["COMMIT"]);
      case RollbackStmt =>
        if !inBlock {
          return Replies(["ROLLBACK"]);
        }
        b.pg := UserAbort(Start(b.pg));
        r := Replies(["ROLLBACK"]);
    }
    fine := CommitTransactionCommand(b);
    if !fine {
      b.pg := AbortCurrent(b.pg);
      r := Failed(ServerError);
    }
  }

  method ExecuteOneStatement(b: Backend, s: Stmt) returns (r: QueryResult)
    requires Quiescent(b.pg)
    modifies b
    ensures Leaves(b.pg, r, SpiOne(Abstract(old(b.pg)), s, b.commitOk))
  {
    if IsAborted(b.pg) && !IsExit(s) {
      return Failed(InFailedBlock);
    }
    match s
    case Ctl(c) => r := HandleXactControl(b, c);
    case Plain(_, _, _, _) => r := WithSpi(b, s);
  }

  /** One pass through the batch loop; the session closes and the snapshot is popped before any error is looked at. */
  method Iteration(b: Backend, s: Stmt, last: bool, ghost a: Session) returns (o: Body)
    requires s.Plain? && Mid(b.pg, a)
    modifies b
    ensures IterationMeans(b.pg, o, a, ViaSpi(s), last, b.commitOk)
  {
    if IsAborted(b.pg) {
      return BodyErr(InFailedBlock);
    }
    b.pg := PushSnapshot(BeginImplicit(Start(b.pg)));
    o := SpiSession(b, s);
    if o.BodyPanic? {
      return;
    }
    b.pg := PopSnapshot(b.pg);
    if o.BodyErr? {
      return;
    }
    if last {
      b.pg := EndImplicit(b.pg);
      var fine := CommitTransactionCommand(b);
      if !fine {
        return BodyPanic;
      }
    }
  }

  method BatchBody(b: Backend, stmts: seq<Stmt>) returns (o: Body)
    requires |stmts| > 0 && NoControl(stmts) && Quiescent(b.pg)
    modifies b
    ensures var (c, r) := Fold(Abstract(old(b.pg)), AllViaSpi(stmts), b.commitOk);
            match o
            case BodyOk(rs) => r == Replies(rs) && Quiescent(b.pg) && Abstract(b.pg) == c
            case _ => r == Failed(ErrorOf(o)) && AbortsTo(b.pg, c)
  {
    var responses := [];
    ghost var a, via := Abstract(b.pg), AllViaSpi(stmts);
    assert via[0..] == via;
    PrefixNone(Fold(a, via, b.commitOk));
    for i := 0 to |stmts|
      invariant i < |stmts| ==> Mid(b.pg, a)
      invariant i == |stmts| ==> Quiescent(b.pg) && Abstract(b.pg) == a
      invariant Fold(Abstract(old(b.pg)), via, b.commitOk) == Prefix(responses, Fold(a, via[i..], b.commitOk))
    {
      ghost var rest := via[i..];
      assert rest[1..] == via[i + 1..] && rest[0] == ViaSpi(stmts[i]);
      ghost var next := BatchStep(a, rest[0], i == |stmts| - 1, b.commitOk);
      o := Iteration(b, stmts[i], i == |stmts| - 1, a);
      if !o.BodyOk? {
        return;
      }
      PrefixTwice(responses, o.resps, Fold(next.0, via[i + 1..], b.commitOk));
      responses := responses + o.resps;
      a := next.0;
    }
    o := BodyOk(responses);
  }

  method ExecuteWithImplicitBlockSpi(b: Backend, stmts: seq<Stmt>) returns (r: QueryResult)
    requires |stmts| > 0 && NoControl(stmts) && Quiescent(b.pg)
    modifies b
    ensures Quiescent(b.pg)
    ensures (Abstract(b.pg), r) == Batch(Abstract(old(b.pg)), AllViaSpi(stmts), b.commitOk)
    ensures !r.Unwound?
  {
    FoldIsBatch(Abstract(b.pg), AllViaSpi(stmts), b.commitOk);
    var o := BatchBody(b, stmts);
    match o
    case BodyOk(rs) =>
      r := Replies(rs);
    case BodyErr(e) =>
      b.pg := AbortCurrent(b.pg);
      r := Failed(e);
    case BodyPanic =>
      b.pg := AbortCurrent(b.pg);
      r := Failed(ServerError);
  }

  /** `execute_simple_query`: a batch of plain statements runs as one unit, anything else statement by statement. */
  method ExecuteSimpleQuery(b: Backend, text: QueryText) returns (r: QueryResult)
    requires Quiescent(b.pg)
    modifies b
    ensures Leaves(b.pg, r, Answer(false, Abstract(old(b.pg)), text, b.commitOk))
  {
    if text.Unparsed? {
      return Failed(text.error);
    }
    var stmts := text.stmts;
    if |stmts| > 1 && NoControl(stmts) {
      r := ExecuteWithImplicitBlockSpi(b, stmts);
      return;
    }
    var responses := [];
    ghost var a := Abstract(b.pg);
    assert stmts[0..] == stmts;
    PrefixNone(SpiSeq(a, stmts, b.commitOk));
    for i := 0 to |stmts|
      invariant Quiescent(b.pg)
      invariant SpiSeq(a, stmts, b.commitOk) == Prefix(responses, SpiSeq(Abstract(b.pg), stmts[i..], b.commitOk))
    {
      ghost var rest := stmts[i..];
      assert rest[1..] == stmts[i + 1..];
      r := ExecuteOneStatement(b, stmts[i]);
      if !r.Replies? {
        return;
      }
      PrefixTwice(responses, r.resps, SpiSeq(Abstract(b.pg), stmts[i + 1..], b.commitOk));
      responses := responses + r.resps;
    }
    assert responses + [] == responses;
    r := Replies(responses);
  }
}
