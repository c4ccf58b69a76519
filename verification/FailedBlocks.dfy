/** The sticky-abort promise: what fails a transaction block, what a failed block answers, and how it ends. */
module FailedBlocks {
  import opened BatchSpec
  import opened BatchTheorems
  import opened Xact

  // ---------------------------------------------------------------------------
  // What fails a block
  // ---------------------------------------------------------------------------

  /** Does the backend run the query as one unit? */
  predicate OneUnit(direct: bool, stmts: seq<Stmt>) { |stmts| > 1 && (direct || NoControl(stmts)) }

  /** The statements of a unit as the backend sees them. */
  function AsUnit(direct: bool, stmts: seq<Stmt>): (t: seq<Stmt>)
    ensures |t| == |stmts|
  {
    if direct then stmts else AllViaSpi(stmts)
  }

  function OutcomeOf(direct: bool, s: Stmt, w: World): Outcome
    requires s.Plain?
  {
    if direct then s.run(w) else SpiOutcome(s, w)
  }

  /** What has run when the query reaches its j-th statement. */
  function Before(direct: bool, a: Session, stmts: seq<Stmt>, j: nat, ok: World -> bool): (Session, QueryResult)
    requires j < |stmts|
  {
    if OneUnit(direct, stmts) then Batch(a, AsUnit(direct, stmts)[..j], ok)
    else if direct then (a, Replies([]))
    else SpiSeq(a, stmts[..j], ok)
  }

  /**
    The query gets as far as its j-th statement, finds a block open there, and an error
    fails it: in a unit any error of a statement in the segment that starts there,
    otherwise a server ERROR of that very statement.
  */
  predicate FailsBlockAt(direct: bool, a: Session, stmts: seq<Stmt>, j: nat, ok: World -> bool) {
    && j < |stmts|
    && var (c, r) := Before(direct, a, stmts, j, ok);
       && r.Replies? && c.mode == Open
       && if OneUnit(direct, stmts)
          then Cut(AsUnit(direct, stmts), j) && SegmentRun(c, AsUnit(direct, stmts)[j..]).Stopped?
          else stmts[j].Plain? && OutcomeOf(direct, stmts[j], c.cur).Raise?
  }

  function ErrorAt(direct: bool, a: Session, stmts: seq<Stmt>, j: nat, ok: World -> bool): QueryError
    requires FailsBlockAt(direct, a, stmts, j, ok)
  {
    if OneUnit(direct, stmts)
    then SegmentRun(Before(direct, a, stmts, j, ok).0, AsUnit(direct, stmts)[j..]).error
    else ServerError
  }

  /** The session is in a failed block and the query does not open with the way out. */
  predicate Refused(a: Session, stmts: seq<Stmt>) { a.mode == FailedBlock && (stmts == [] || !IsExit(stmts[0])) }

  // ---------------------------------------------------------------------------
  // In a unit
  // ---------------------------------------------------------------------------

  lemma {:induction false} EndsFailed(a: Session, stmts: seq<Stmt>, ok: World -> bool)
    requires Batch(a, stmts, ok).0.mode == FailedBlock
    ensures Refused(a, stmts) || Batch(a, stmts, ok).1.Failed?
    decreases |stmts|
  {
    if stmts != [] && !Refused(a, stmts) {
      var k := SegmentLength(stmts);
      match RunPlain(a.cur, stmts[..k])
      case Stopped(_) =>
      case Ran(w, _) =>
        if k < |stmts| {
          var (c, fine) := Dispose(a.(cur := w), stmts[k].control, ok);
          if fine { EndsFailed(c, stmts[k + 1..], ok); }
        }
    }
  }

  /** A unit that leaves a failed block was failed by a segment that found the block open. */
  lemma UnitFailedAt(a: Session, stmts: seq<Stmt>, ok: World -> bool) returns (j: nat)
    requires Sound(a) && !Refused(a, stmts) && Batch(a, stmts, ok).0.mode == FailedBlock
    ensures j < |stmts| && Cut(stmts, j)
    ensures var (c, r) := UpTo(a, stmts, j, ok); r.Replies? && c.mode == Open && SegmentRun(c, stmts[j..]).Stopped?
  {
    EndsFailed(a, stmts, ok);
    FailedSegmentUndone(a, stmts, ok);
    j :| FailsFrom(a, stmts, j, ok);
    var (c, r) := UpTo(a, stmts, j, ok);
    if c.mode == FailedBlock {
      EndsFailed(a, stmts[..j], ok);
    }
  }

  lemma UnitStopped(a: Session, stmts: seq<Stmt>, j: nat, ok: World -> bool)
    requires j < |stmts| && Cut(stmts, j)
    requires var (c, r) := UpTo(a, stmts, j, ok); r.Replies? && c.mode == Open && SegmentRun(c, stmts[j..]).Stopped?
    ensures var c := UpTo(a, stmts, j, ok).0;
            Batch(a, stmts, ok) == (Session(FailedBlock, c.base, c.base), Failed(SegmentRun(c, stmts[j..]).error))
  {
    CutComposes(a, stmts, j, ok);
  }

  // ---------------------------------------------------------------------------
  // Statement by statement on SPI
  // ---------------------------------------------------------------------------

  lemma {:induction false} SpiComposes(a: Session, stmts: seq<Stmt>, j: nat, ok: World -> bool)
    requires j <= |stmts|
    ensures var u := SpiSeq(a, stmts[..j], ok);
            SpiSeq(a, stmts, ok) == if u.1.Replies? then Prefix(u.1.resps, SpiSeq(u.0, stmts[j..], ok)) else u
    decreases |stmts|
  {
    if j == 0 {
      assert stmts[..0] == [] && stmts[0..] == stmts;
      PrefixNone(SpiSeq(a, stmts, ok));
    } else {
      var (b, r) := SpiOne(a, stmts[0], ok);
      assert stmts[..j][0] == stmts[0] && stmts[..j][1..] == stmts[1..][..j - 1] && stmts[1..][j - 1..] == stmts[j..];
      if r.Replies? {
        SpiComposes(b, stmts[1..], j - 1, ok);
        var u := SpiSeq(b, stmts[1..][..j - 1], ok);
        if u.1.Replies? {
          PrefixTwice(r.resps, u.1.resps, SpiSeq(u.0, stmts[j..], ok));
        }
      }
    }
  }

  predicate SpiRaisesAt(a: Session, stmts: seq<Stmt>, j: nat, ok: World -> bool) {
    && j < |stmts| && stmts[j].Plain?
    && var (c, r) := SpiSeq(a, stmts[..j], ok);
       r.Replies? && c.mode == Open && SpiOutcome(stmts[j], c.cur).Raise?
  }

  lemma SpiRaised(a: Session, stmts: seq<Stmt>, j: nat, ok: World -> bool)
    requires SpiRaisesAt(a, stmts, j, ok)
    ensures var c := SpiSeq(a, stmts[..j], ok).0;
            SpiSeq(a, stmts, ok) == (Session(FailedBlock, c.base, c.base), Failed(ServerError))
  {
    SpiComposes(a, stmts, j, ok);
    assert stmts[j..][0] == stmts[j];
  }

  lemma {:induction false} SpiFailedAt(a: Session, stmts: seq<Stmt>, ok: World -> bool) returns (j: nat)
    requires !Refused(a, stmts) && SpiSeq(a, stmts, ok).0.mode == FailedBlock
    ensures SpiRaisesAt(a, stmts, j, ok)
    decreases |stmts|
  {
    var (b, r) := SpiOne(a, stmts[0], ok);
    if r.Replies? {
      var i := SpiFailedAt(b, stmts[1..], ok);
      j := i + 1;
      SpiComposes(a, stmts[..j], 1, ok);
      SpiSeqOne(a, stmts[0], ok);
      assert stmts[..j][..1] == [stmts[0]] && stmts[..j][1..] == stmts[1..][..i];
    } else {
      j := 0;
      assert stmts[..0] == [];
    }
  }

  // ---------------------------------------------------------------------------
  // Any query, either backend
  // ---------------------------------------------------------------------------

  /** What a block has lost when it fails, and what the client is told. */
  lemma FailedBlockLoses(direct: bool, a: Session, stmts: seq<Stmt>, j: nat, ok: World -> bool)
    requires FailsBlockAt(direct, a, stmts, j, ok)
    ensures var c := Before(direct, a, stmts, j, ok).0;
            Query(direct, a, stmts, ok)
            == (Session(FailedBlock, c.base, c.base), Failed(ErrorAt(direct, a, stmts, j, ok)))
  {
    if OneUnit(direct, stmts) {
      UnitStopped(a, AsUnit(direct, stmts), j, ok);
    } else if !direct {
      SpiRaised(a, stmts, j, ok);
    }
  }

  /**
    Exactly when a query leaves a failed block behind, from any state and wherever the
    block was opened: the block was failed already and the query does not open with the
    way out, or a statement of the query goes wrong in an open block, with a server
    ERROR or, in a unit, with any error.
  */
  lemma ErrorFailsBlock(direct: bool, a: Session, stmts: seq<Stmt>, ok: World -> bool)
    requires Sound(a)
    ensures Query(direct, a, stmts, ok).0.mode == FailedBlock <==>
            Refused(a, stmts) || exists j: nat :: FailsBlockAt(direct, a, stmts, j, ok)
  {
    if j: nat :| FailsBlockAt(direct, a, stmts, j, ok) {
      FailedBlockLoses(direct, a, stmts, j, ok);
    }
    if Refused(a, stmts) {
      RefusedStays(direct, a, stmts, ok);
    } else if Query(direct, a, stmts, ok).0.mode == FailedBlock {
      FoundFailing(direct, a, stmts, ok);
    }
  }

  lemma RefusedStays(direct: bool, a: Session, stmts: seq<Stmt>, ok: World -> bool)
    requires Refused(a, stmts)
    ensures Query(direct, a, stmts, ok) == (a, if stmts == [] then Replies([]) else Failed(InFailedBlock))
  {
    if OneUnit(false, stmts) {
      ViaSpiPlain(stmts);
    }
  }

  lemma FoundFailing(direct: bool, a: Session, stmts: seq<Stmt>, ok: World -> bool)
    requires Sound(a) && !Refused(a, stmts) && Query(direct, a, stmts, ok).0.mode == FailedBlock
    ensures exists j: nat :: FailsBlockAt(direct, a, stmts, j, ok)
  {
    if OneUnit(direct, stmts) {
      var j := UnitFailedAt(a, AsUnit(direct, stmts), ok);
      assert FailsBlockAt(direct, a, stmts, j, ok);
    } else if direct {
      assert FailsBlockAt(direct, a, stmts, 0, ok);
    } else {
      var j := SpiFailedAt(a, stmts, ok);
      assert FailsBlockAt(direct, a, stmts, j, ok);
    }
  }

  /** Outside a unit a typed error ends the query and keeps the block open, the reporting statement's work included. */
  lemma TypedErrorKeepsBlock(a: Session, stmts: seq<Stmt>, j: nat, ok: World -> bool)
    requires j < |stmts| && stmts[j].Plain? && !OneUnit(false, stmts)
    requires var (c, r) := SpiSeq(a, stmts[..j], ok);
             r.Replies? && c.mode == Open && SpiOutcome(stmts[j], c.cur).Typed?
    ensures var c := SpiSeq(a, stmts[..j], ok).0;
            Query(false, a, stmts, ok) == (c.(cur := SpiOutcome(stmts[j], c.cur).world), Failed(TypedError))
  {
    SpiComposes(a, stmts, j, ok);
    assert stmts[j..][0] == stmts[j];
  }

  function Refuse(): Stmt { Plain(true, (w: World) => Typed(w), true, true) }

  /**
    The backends differ on a typed error in front of COMMIT: SPI stops there with the
    block still open and COMMIT never reached, the direct backend fails the block.
  */
  lemma TypedErrorThenCommit(w: World, c: World, ok: World -> bool)
    ensures var stmts, a := [Refuse(), Ctl(CommitStmt)], Session(Open, w, c);
            && Query(false, a, stmts, ok) == (a, Failed(TypedError))
            && Query(true, a, stmts, ok) == (Session(FailedBlock, w, w), Failed(TypedError))
  {
    var stmts, a := [Refuse(), Ctl(CommitStmt)], Session(Open, w, c);
    assert !NoControl(stmts) by { assert stmts[1].Ctl?; }
    assert SpiOne(a, Refuse(), ok) == (a, Failed(TypedError));
    FoldIsBatch(a, stmts, ok);
    assert BatchStep(a, Refuse(), false, ok) == (Undo(a), Failed(TypedError));
  }

  // ---------------------------------------------------------------------------
  // Text that does not parse
  // ---------------------------------------------------------------------------

  /** The one server ERROR that leaves an open block open is that of a query that does not parse. */
  lemma OnlySyntaxErrorKeepsBlock(direct: bool, a: Session, text: QueryText, ok: World -> bool)
    requires Answer(direct, a, text, ok).1 == Failed(ServerError)
    ensures Answer(direct, a, text, ok).0.mode == Open <==> a.mode == Open && text.Unparsed?
    ensures text.Unparsed? ==> Answer(direct, a, text, ok).0 == a
  {
    match text
    case Unparsed(_) =>
    case Parsed(stmts) =>
      if OneUnit(direct, stmts) {
        UnitErrorClosesBlock(a, AsUnit(direct, stmts), ok);
      } else if !direct {
        SpiErrorClosesBlock(a, stmts, ok);
      }
  }

  lemma {:induction false} UnitErrorClosesBlock(a: Session, stmts: seq<Stmt>, ok: World -> bool)
    requires Batch(a, stmts, ok).1.Failed?
    ensures Batch(a, stmts, ok).0.mode != Open
    decreases |stmts|
  {
    if stmts != [] && !Refused(a, stmts) {
      var k := SegmentLength(stmts);
      match RunPlain(a.cur, stmts[..k])
      case Stopped(_) =>
      case Ran(w, _) =>
        if k < |stmts| {
          var (c, fine) := Dispose(a.(cur := w), stmts[k].control, ok);
          if fine { UnitErrorClosesBlock(c, stmts[k + 1..], ok); }
        }
    }
  }

  lemma {:induction false} SpiErrorClosesBlock(a: Session, stmts: seq<Stmt>, ok: World -> bool)
    requires SpiSeq(a, stmts, ok).1 == Failed(ServerError)
    ensures SpiSeq(a, stmts, ok).0.mode != Open
    decreases |stmts|
  {
    if stmts != [] {
      var (b, r) := SpiOne(a, stmts[0], ok);
      if r.Replies? { SpiErrorClosesBlock(b, stmts[1..], ok); }
    }
  }

  // ---------------------------------------------------------------------------
  // The life of a failed block
  // ---------------------------------------------------------------------------

  /** One simple query: the backend setting in force and the text. */
  datatype Q = Q(direct: bool, text: QueryText)

  predicate OpensWithExit(q: Q) { q.text.Parsed? && q.text.stmts != [] && IsExit(q.text.stmts[0]) }

  function RunQueries(a: Session, qs: seq<Q>, ok: World -> bool): (Session, seq<QueryResult>)
    decreases |qs|
  {
    if qs == [] then (a, [])
    else
      var (b, r) := Answer(qs[0].direct, a, qs[0].text, ok);
      var (c, rs) := RunQueries(b, qs[1..], ok);
      (c, [r] + rs)
  }

  /** What a failed block answers to a query that does not open with the way out. */
  function Refusal(q: Q): QueryResult {
    match q.text
    case Unparsed(e) => Failed(e)
    case Parsed(stmts) => if stmts == [] then Replies([]) else Failed(InFailedBlock)
  }

  /**
    A failed block is sticky: over any number of queries that do not open with
    COMMIT or ROLLBACK nothing changes, and each query that holds a statement is
    refused with 25P02.
  */
  lemma {:induction false} FailedBlockSticky(a: Session, qs: seq<Q>, ok: World -> bool)
    requires a.mode == FailedBlock
    requires forall i :: 0 <= i < |qs| ==> !OpensWithExit(qs[i])
    ensures var (b, rs) := RunQueries(a, qs, ok);
            b == a && |rs| == |qs| && forall i :: 0 <= i < |qs| ==> rs[i] == Refusal(qs[i])
    decreases |qs|
  {
    if qs != [] {
      if qs[0].text.Parsed? {
        RefusedStays(qs[0].direct, a, qs[0].text.stmts, ok);
      }
      FailedBlockSticky(a, qs[1..], ok);
    }
  }

  /** How COMMIT or ROLLBACK of a failed block is answered. */
  function ExitTag(direct: bool, s: Stmt): Response
    requires IsExit(s)
  {
    if direct || s.control == RollbackStmt then "ROLLBACK" else "COMMIT"
  }

  /** What runs behind an exit in the same query: one unit on the direct backend, statement by statement on SPI. */
  function GoesOn(direct: bool, a: Session, rest: seq<Stmt>, ok: World -> bool): (Session, QueryResult) {
    if direct then Batch(a, rest, ok) else SpiSeq(a, rest, ok)
  }

  /**
    The first COMMIT or ROLLBACK of a failed block returns to idle with none of the
    block's work, and what follows it in the same query runs from there.
  */
  lemma FailedBlockRecovers(direct: bool, a: Session, s: Stmt, rest: seq<Stmt>, ok: World -> bool)
    requires a.mode == FailedBlock && IsExit(s)
    ensures Query(direct, a, [s] + rest, ok)
            == Prefix([ExitTag(direct, s)], GoesOn(direct, Session(Idle, a.base, a.base), rest, ok))
  {
    var stmts, idle := [s] + rest, Session(Idle, a.base, a.base);
    assert stmts[0] == s && stmts[1..] == rest;
    assert !NoControl(stmts);
    if direct && rest != [] {
      assert SegmentLength(stmts) == 0 && stmts[..0] == [];
      assert [] + [ExitTag(direct, s)] == [ExitTag(direct, s)];
    } else if direct {
      assert stmts == [s];
      assert DirectOne(a, s, ok) == (idle, Replies([ExitTag(true, s)]));
      assert Batch(idle, rest, ok) == (idle, Replies([]));
      assert [ExitTag(true, s)] + [] == [ExitTag(true, s)];
    }
  }

  lemma {:induction false} RunQueriesAppend(a: Session, xs: seq<Q>, ys: seq<Q>, ok: World -> bool)
    ensures var (b, rs) := RunQueries(a, xs, ok);
            var (c, more) := RunQueries(b, ys, ok);
            RunQueries(a, xs + ys, ok) == (c, rs + more)
    decreases |xs|
  {
    if xs == [] {
      assert xs + ys == ys;
      assert [] + RunQueries(a, ys, ok).1 == RunQueries(a, ys, ok).1;
    } else {
      var (b, r) := Answer(xs[0].direct, a, xs[0].text, ok);
      RunQueriesAppend(b, xs[1..], ys, ok);
      assert (xs + ys)[0] == xs[0] && (xs + ys)[1..] == xs[1..] + ys;
      var rs, more := RunQueries(b, xs[1..], ok).1, RunQueries(RunQueries(b, xs[1..], ok).0, ys, ok).1;
      assert [r] + (rs + more) == [r] + rs + more;
    }
  }

  lemma RunOne(a: Session, q: Q, ok: World -> bool)
    ensures var (b, r) := Answer(q.direct, a, q.text, ok); RunQueries(a, [q], ok) == (b, [r])
  {
    var (b, r) := Answer(q.direct, a, q.text, ok);
    assert [q][0] == q && [q][1..] == [];
    assert RunQueries(b, [], ok) == (b, []);
    assert [r] + [] == [r];
  }

  /**
    The whole life of a failed block, backends mixed freely: a query that fails a block,
    found open or opened by the query itself, any number of queries that do not open
    with an exit, and the first that does. The error is reported once, everything in
    between is refused, and the exit goes on from what was committed before the block.
  */
  lemma {:induction false} FailedBlockLife(a: Session, bad: Q, j: nat, between: seq<Q>, exit: Q, ok: World -> bool)
    requires bad.text.Parsed? && FailsBlockAt(bad.direct, a, bad.text.stmts, j, ok)
    requires forall i :: 0 <= i < |between| ==> !OpensWithExit(between[i])
    requires OpensWithExit(exit)
    ensures var c := Before(bad.direct, a, bad.text.stmts, j, ok).0;
            var s, rest := exit.text.stmts[0], exit.text.stmts[1..];
            var last := Prefix([ExitTag(exit.direct, s)], GoesOn(exit.direct, Session(Idle, c.base, c.base), rest, ok));
            var (b, rs) := RunQueries(a, [bad] + between + [exit], ok);
            && b == last.0 && |rs| == |between| + 2
            && rs[0] == Failed(ErrorAt(bad.direct, a, bad.text.stmts, j, ok))
            && (forall i :: 0 <= i < |between| ==> rs[i + 1] == Refusal(between[i]))
            && rs[|between| + 1] == last.1
  {
    var c := Before(bad.direct, a, bad.text.stmts, j, ok).0;
    var failed, stmts := Session(FailedBlock, c.base, c.base), exit.text.stmts;
    FailedBlockLoses(bad.direct, a, bad.text.stmts, j, ok);
    FailedBlockSticky(failed, between, ok);
    FailedBlockRecovers(exit.direct, failed, stmts[0], stmts[1..], ok);
    assert [stmts[0]] + stmts[1..] == stmts;
    RunOne(a, bad, ok);
    RunOne(failed, exit, ok);
    RunQueriesAppend(a, [bad], between, ok);
    RunQueriesAppend(a, [bad] + between, [exit], ok);
  }
}
