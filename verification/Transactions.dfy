/**
  What a client is promised of its transactions, on both backends: what BEGIN, COMMIT
  and ROLLBACK do, what one statement does, and what a whole transaction comes to,
  sent in one query or in many.
*/
module Transactions {
  import opened BatchSpec
  import opened BatchTheorems
  import opened FailedBlocks
  import opened Xact

  // ---------------------------------------------------------------------------
  // BEGIN, COMMIT and ROLLBACK, with anything behind them in the same query
  // ---------------------------------------------------------------------------

  /** What a transaction statement at the head of a query did, with the rest of the query going on from there. */
  lemma HeadControl(direct: bool, a: Session, c: Control, tag: Response, b: Session, rest: seq<Stmt>, ok: World -> bool)
    requires if direct then a.mode != FailedBlock || c != BeginStmt else SpiOne(a, Ctl(c), ok) == (b, Replies([tag]))
    requires direct ==> Dispose(a, c, ok) == (b, true) && Tag(a, c) == tag
    ensures Query(direct, a, [Ctl(c)] + rest, ok) == Prefix([tag], GoesOn(direct, b, rest, ok))
  {
    var stmts := [Ctl(c)] + rest;
    assert stmts[0] == Ctl(c) && stmts[1..] == rest;
    assert !NoControl(stmts);
    if direct && rest == [] {
      assert stmts == [Ctl(c)];
      assert [tag] + [] == [tag];
      assert Batch(b, rest, ok) == (b, Replies([]));
    } else if direct {
      assert SegmentLength(stmts) == 0 && stmts[..0] == [] && stmts[0 + 1..] == rest;
      assert a.(cur := a.cur) == a && [] + [tag] == [tag];
    }
  }

  /** ROLLBACK discards everything since the last commit, whatever the state. */
  lemma RollbackDiscards(direct: bool, a: Session, rest: seq<Stmt>, ok: World -> bool)
    ensures Query(direct, a, [Ctl(RollbackStmt)] + rest, ok)
            == Prefix(["ROLLBACK"], GoesOn(direct, Session(Idle, a.base, a.base), rest, ok))
  {
    HeadControl(direct, a, RollbackStmt, "ROLLBACK", Session(Idle, a.base, a.base), rest, ok);
  }

  /** COMMIT of an open block makes all of its work permanent, if the deferred checks let it. */
  lemma CommitKeeps(direct: bool, a: Session, rest: seq<Stmt>, ok: World -> bool)
    requires a.mode == Open && ok(a.cur)
    ensures Query(direct, a, [Ctl(CommitStmt)] + rest, ok)
            == Prefix(["COMMIT"], GoesOn(direct, Session(Idle, a.cur, a.cur), rest, ok))
  {
    HeadControl(direct, a, CommitStmt, "COMMIT", Session(Idle, a.cur, a.cur), rest, ok);
  }

  /** A refused COMMIT keeps nothing of the block and ends the query, on the direct single path with a panic. */
  lemma CommitRejected(direct: bool, a: Session, rest: seq<Stmt>, ok: World -> bool)
    requires a.mode == Open && !ok(a.cur)
    ensures Query(direct, a, [Ctl(CommitStmt)] + rest, ok)
            == (Session(Idle, a.base, a.base), if direct && rest == [] then Unwound else Failed(ServerError))
  {
    var stmts := [Ctl(CommitStmt)] + rest;
    assert stmts[0] == Ctl(CommitStmt) && stmts[1..] == rest;
    assert !NoControl(stmts);
    if direct && rest != [] {
      assert SegmentLength(stmts) == 0 && stmts[..0] == [];
      assert a.(cur := a.cur) == a;
    }
  }

  /** BEGIN opens a block over what is committed; inside a block it changes nothing. */
  lemma BeginOpens(direct: bool, a: Session, rest: seq<Stmt>, ok: World -> bool)
    requires Sound(a) && a.mode != FailedBlock
    ensures Query(direct, a, [Ctl(BeginStmt)] + rest, ok)
            == Prefix(["BEGIN"], GoesOn(direct, if a.mode == Idle then Session(Open, a.base, a.base) else a, rest, ok))
  {
    HeadControl(direct, a, BeginStmt, "BEGIN", a.(mode := Open), rest, ok);
  }

  /** COMMIT outside a block changes nothing; the direct backend still runs the deferred checks. */
  lemma IdleCommit(direct: bool, a: Session, rest: seq<Stmt>, ok: World -> bool)
    requires Sound(a) && a.mode == Idle && (direct ==> ok(a.cur))
    ensures Query(direct, a, [Ctl(CommitStmt)] + rest, ok) == Prefix(["COMMIT"], GoesOn(direct, a, rest, ok))
  {
    HeadControl(direct, a, CommitStmt, "COMMIT", a, rest, ok);
  }

  // ---------------------------------------------------------------------------
  // One statement
  // ---------------------------------------------------------------------------

  /** A single statement that succeeds: committed at once outside a block, part of the block inside one. */
  lemma StatementDone(direct: bool, a: Session, s: Stmt, w: World, r: Response, ok: World -> bool)
    requires a.mode != FailedBlock && s.Plain? && OutcomeOf(direct, s, a.cur) == Done(w, r)
    ensures a.mode == Open ==> Query(direct, a, [s], ok) == (Session(Open, a.base, w), Replies([r]))
    ensures a.mode == Idle && ok(w) ==> Query(direct, a, [s], ok) == (Session(Idle, w, w), Replies([r]))
    ensures a.mode == Idle && !ok(w) ==> Query(direct, a, [s], ok) == (Session(Idle, a.base, a.base), Unwound)
  {
    SpiSeqOne(a, s, ok);
  }

  /** A single statement that goes wrong: a server ERROR undoes and fails the block, a typed error keeps the work. */
  lemma StatementFailed(direct: bool, a: Session, s: Stmt, ok: World -> bool)
    requires Sound(a) && a.mode != FailedBlock && s.Plain? && !OutcomeOf(direct, s, a.cur).Done?
    ensures var o, q := OutcomeOf(direct, s, a.cur), Query(direct, a, [s], ok);
            && (o.Raise? && a.mode == Open ==> q == (Session(FailedBlock, a.base, a.base), Failed(ServerError)))
            && (o.Raise? && a.mode == Idle ==> q == (a, Failed(ServerError)))
            && (o.Typed? && a.mode == Open ==> q == (Session(Open, a.base, o.world), Failed(TypedError)))
            && (o.Typed? && a.mode == Idle && ok(o.world) ==>
                  q == (Session(Idle, o.world, o.world), Failed(TypedError)))
            && (o.Typed? && a.mode == Idle && !ok(o.world) ==> q == (a, Unwound))
  {
    SpiSeqOne(a, s, ok);
  }

  /** An SPI session that does not open costs nothing but the answer; one that does not close keeps the work. */
  lemma SpiSessionFails(a: Session, s: Stmt, ok: World -> bool)
    requires a.mode == Open && s.Plain?
    ensures !s.connects ==> Query(false, a, [s], ok) == (a, Failed(TypedError))
    ensures s.connects && s.run(a.cur).Done? ==>
              Query(false, a, [s], ok)
              == (Session(Open, a.base, s.run(a.cur).world),
                  if s.finishes then Replies([s.run(a.cur).resp]) else Failed(TypedError))
    ensures s.connects && s.run(a.cur).Raise? ==>
              Query(false, a, [s], ok) == (Session(FailedBlock, a.base, a.base), Failed(ServerError))
  {
    SpiSeqOne(a, s, ok);
  }

  // ---------------------------------------------------------------------------
  // Statements one after another
  // ---------------------------------------------------------------------------

  /** The statements take the world through `ws`, the i-th from ws[i] to ws[i + 1] with reply rs[i]. */
  predicate Through(direct: bool, ws: seq<World>, stmts: seq<Stmt>, rs: seq<Response>) {
    && |ws| == |stmts| + 1 && |rs| == |stmts| && NoControl(stmts)
    && forall i :: 0 <= i < |stmts| ==> OutcomeOf(direct, stmts[i], ws[i]) == Done(ws[i + 1], rs[i])
  }

  lemma ThroughRest(direct: bool, ws: seq<World>, stmts: seq<Stmt>, rs: seq<Response>)
    requires Through(direct, ws, stmts, rs) && stmts != []
    ensures Through(direct, ws[1..], stmts[1..], rs[1..])
    ensures OutcomeOf(direct, stmts[0], ws[0]) == Done(ws[1], rs[0])
    ensures rs == [rs[0]] + rs[1..] && stmts == [stmts[0]] + stmts[1..]
  {
  }

  /** Statements in front of more statements of a batch: they run first, each in the world left by the last. */
  lemma {:induction false} BatchThrough(a: Session, ws: seq<World>, stmts: seq<Stmt>, rs: seq<Response>,
                                        tail: seq<Stmt>, ok: World -> bool)
    requires a.mode != FailedBlock && tail != [] && Through(true, ws, stmts, rs) && ws[0] == a.cur
    ensures Batch(a, stmts + tail, ok) == Prefix(rs, Batch(a.(cur := ws[|stmts|]), tail, ok))
    decreases |stmts|
  {
    if stmts == [] {
      assert stmts + tail == tail && a.(cur := ws[0]) == a;
      PrefixNone(Batch(a, tail, ok));
    } else {
      var b, s, more := a.(cur := ws[1]), stmts[0], stmts[1..];
      ThroughRest(true, ws, stmts, rs);
      assert stmts + tail == [s] + (more + tail);
      PlainThenBatch(a, b, s, more + tail, ok);
      BatchThrough(b, ws[1..], more, rs[1..], tail, ok);
      PrefixTwice([rs[0]], rs[1..], Batch(a.(cur := ws[|stmts|]), tail, ok));
    }
  }

  /**
    A batch up to its first transaction statement, whether a block is open or not:
    BEGIN opens a block around the work so far, COMMIT makes it permanent or ends the
    batch with nothing of it, ROLLBACK discards it.
  */
  lemma SegmentEnds(a: Session, ws: seq<World>, stmts: seq<Stmt>, rs: seq<Response>, c: Control, rest: seq<Stmt>,
                    ok: World -> bool)
    requires a.mode != FailedBlock && Through(true, ws, stmts, rs) && ws[0] == a.cur
    ensures var w, q := ws[|stmts|], Batch(a, stmts + ([Ctl(c)] + rest), ok);
            && (c == BeginStmt ==> q == Prefix(rs + ["BEGIN"], Batch(Session(Open, a.base, w), rest, ok)))
            && (c == CommitStmt && ok(w) ==> q == Prefix(rs + ["COMMIT"], Batch(Session(Idle, w, w), rest, ok)))
            && (c == CommitStmt && !ok(w) ==> q == (Session(Idle, a.base, a.base), Failed(ServerError)))
            && (c == RollbackStmt ==> q == Prefix(rs + ["ROLLBACK"], Batch(Session(Idle, a.base, a.base), rest, ok)))
  {
    var full, tail := a.(cur := ws[|stmts|]), [Ctl(c)] + rest;
    BatchThrough(a, ws, stmts, rs, tail, ok);
    assert tail[0] == Ctl(c) && tail[0 + 1..] == rest && SegmentLength(tail) == 0 && tail[..0] == [];
    assert full.(cur := full.cur) == full;
    var (b, fine) := Dispose(full, c, ok);
    var tag := Tag(full, c);
    if fine {
      assert [] + [tag] == [tag];
      PrefixTwice(rs, [tag], Batch(b, rest, ok));
    }
  }

  /** A batch that a statement stops: all since the last commit is undone and an open block is left failed. */
  lemma BatchStops(a: Session, ws: seq<World>, stmts: seq<Stmt>, rs: seq<Response>, s: Stmt, rest: seq<Stmt>,
                   ok: World -> bool)
    requires a.mode != FailedBlock && Through(true, ws, stmts, rs) && ws[0] == a.cur
    requires s.Plain? && !s.run(ws[|stmts|]).Done?
    ensures Batch(a, stmts + ([s] + rest), ok)
            == (Session(if a.mode == Open then FailedBlock else Idle, a.base, a.base),
                Failed(if s.run(ws[|stmts|]).Raise? then ServerError else TypedError))
  {
    var full, tail := a.(cur := ws[|stmts|]), [s] + rest;
    BatchThrough(a, ws, stmts, rs, tail, ok);
    FoldIsBatch(full, tail, ok);
    assert tail[0] == s;
  }

  /** The same inside an open block on SPI. */
  lemma {:induction false} SeqThrough(a: Session, ws: seq<World>, stmts: seq<Stmt>, rs: seq<Response>,
                                      tail: seq<Stmt>, ok: World -> bool)
    requires a.mode == Open && Through(false, ws, stmts, rs) && ws[0] == a.cur
    ensures SpiSeq(a, stmts + tail, ok) == Prefix(rs, SpiSeq(a.(cur := ws[|stmts|]), tail, ok))
    decreases |stmts|
  {
    if stmts == [] {
      assert stmts + tail == tail && a.(cur := ws[0]) == a;
      PrefixNone(SpiSeq(a, tail, ok));
    } else {
      var b, s, more := a.(cur := ws[1]), stmts[0], stmts[1..];
      ThroughRest(false, ws, stmts, rs);
      assert (stmts + tail)[0] == s && (stmts + tail)[1..] == more + tail;
      SeqThrough(b, ws[1..], more, rs[1..], tail, ok);
      PrefixTwice([rs[0]], rs[1..], SpiSeq(a.(cur := ws[|stmts|]), tail, ok));
    }
  }

  /** What the end of a transaction leaves committed, and how it is answered. */
  function Ending(c: Control, base: World, work: World): (World, Response) {
    if c == CommitStmt then (work, "COMMIT") else (base, "ROLLBACK")
  }

  lemma EndOfBlock(direct: bool, a: Session, c: Control, rest: seq<Stmt>, ok: World -> bool)
    requires a.mode == Open && c != BeginStmt && (c == CommitStmt ==> ok(a.cur))
    ensures var (w, tag) := Ending(c, a.base, a.cur);
            GoesOn(direct, a, [Ctl(c)] + rest, ok) == Prefix([tag], GoesOn(direct, Session(Idle, w, w), rest, ok))
  {
    var (w, tag) := Ending(c, a.base, a.cur);
    var stmts := [Ctl(c)] + rest;
    assert stmts[0] == Ctl(c) && stmts[1..] == rest;
    if direct {
      assert SegmentLength(stmts) == 0 && stmts[..0] == [] && stmts[0 + 1..] == rest;
      assert a.(cur := a.cur) == a && [] + [tag] == [tag];
    }
  }

  /**
    A whole transaction in one query, with anything behind it: if its statements succeed
    one after another, COMMIT leaves the work of all of them committed and ROLLBACK that
    of none, every statement is answered, and the rest of the query goes on from there.
  */
  lemma TransactionInOneQuery(direct: bool, a: Session, ws: seq<World>, stmts: seq<Stmt>, rs: seq<Response>,
                              c: Control, rest: seq<Stmt>, ok: World -> bool)
    requires Sound(a) && a.mode == Idle && Through(direct, ws, stmts, rs) && ws[0] == a.base
    requires c != BeginStmt && (c == CommitStmt ==> ok(ws[|stmts|]))
    ensures var (w, tag) := Ending(c, a.base, ws[|stmts|]);
            Query(direct, a, [Ctl(BeginStmt)] + (stmts + ([Ctl(c)] + rest)), ok)
            == Prefix(["BEGIN"] + rs + [tag], GoesOn(direct, Session(Idle, w, w), rest, ok))
  {
    var (w, tag) := Ending(c, a.base, ws[|stmts|]);
    var open, tail := Session(Open, a.base, a.base), [Ctl(c)] + rest;
    var full, last := open.(cur := ws[|stmts|]), GoesOn(direct, Session(Idle, w, w), rest, ok);
    BeginOpens(direct, a, stmts + tail, ok);
    if direct {
      BatchThrough(open, ws, stmts, rs, tail, ok);
    } else {
      SeqThrough(open, ws, stmts, rs, tail, ok);
    }
    EndOfBlock(direct, full, c, rest, ok);
    PrefixTwice(rs, [tag], last);
    PrefixTwice(["BEGIN"], rs + [tag], last);
    assert ["BEGIN"] + (rs + [tag]) == ["BEGIN"] + rs + [tag];
  }

  // ---------------------------------------------------------------------------
  // Several plain statements in one query
  // ---------------------------------------------------------------------------

  /** A query without statements does nothing, in any state. */
  lemma EmptyQuery(direct: bool, a: Session, ok: World -> bool)
    ensures Query(direct, a, [], ok) == (a, Replies([]))
  {
  }

  lemma {:induction false} RunThrough(ws: seq<World>, stmts: seq<Stmt>, rs: seq<Response>)
    requires Through(true, ws, stmts, rs)
    ensures RunPlain(ws[0], stmts) == Ran(ws[|stmts|], rs)
    decreases |stmts|
  {
    if stmts != [] {
      ThroughRest(true, ws, stmts, rs);
      RunThrough(ws[1..], stmts[1..], rs[1..]);
    }
  }

  lemma ThroughSpi(ws: seq<World>, stmts: seq<Stmt>, rs: seq<Response>)
    requires Through(false, ws, stmts, rs)
    ensures Through(true, ws, AllViaSpi(stmts), rs)
  {
    ViaSpiPlain(stmts);
    assert forall i :: 0 <= i < |stmts| ==> AllViaSpi(stmts)[i].run(ws[i]) == SpiOutcome(stmts[i], ws[i]);
  }

  /** Several plain statements that all succeed: their work counts as one, committed outside a block as a whole. */
  lemma UnitDone(direct: bool, a: Session, ws: seq<World>, stmts: seq<Stmt>, rs: seq<Response>, ok: World -> bool)
    requires a.mode != FailedBlock && |stmts| > 1 && Through(direct, ws, stmts, rs) && ws[0] == a.cur
    ensures var w, q := ws[|stmts|], Query(direct, a, stmts, ok);
            && (a.mode == Open ==> q == (Session(Open, a.base, w), Replies(rs)))
            && (a.mode == Idle && ok(w) ==> q == (Session(Idle, w, w), Replies(rs)))
            && (a.mode == Idle && !ok(w) ==> q == (Session(Idle, a.base, a.base), Failed(ServerError)))
  {
    var unit := AsUnit(direct, stmts);
    if !direct { ThroughSpi(ws, stmts, rs); }
    RunThrough(ws, unit, rs);
    PlainSegment(unit);
    assert unit[..|unit|] == unit;
  }

  /** Several plain statements one of which fails: none of their work stays, and an open block is left failed. */
  lemma UnitStops(direct: bool, a: Session, ws: seq<World>, front: seq<Stmt>, rs: seq<Response>, s: Stmt,
                  rest: seq<Stmt>, ok: World -> bool)
    requires a.mode != FailedBlock && front + rest != [] && NoControl(rest) && s.Plain?
    requires Through(direct, ws, front, rs) && ws[0] == a.cur && !OutcomeOf(direct, s, ws[|front|]).Done?
    ensures Query(direct, a, front + ([s] + rest), ok)
            == (Session(if a.mode == Open then FailedBlock else Idle, a.base, a.base),
                Failed(if OutcomeOf(direct, s, ws[|front|]).Raise? then ServerError else TypedError))
  {
    if direct {
      BatchStops(a, ws, front, rs, s, rest, ok);
    } else {
      var stmts := front + ([s] + rest);
      ThroughSpi(ws, front, rs);
      BatchStops(a, ws, AllViaSpi(front), rs, ViaSpi(s), AllViaSpi(rest), ok);
      assert AllViaSpi(stmts) == AllViaSpi(front) + ([ViaSpi(s)] + AllViaSpi(rest));
    }
  }

  // ---------------------------------------------------------------------------
  // A transaction spread over many queries
  // ---------------------------------------------------------------------------

  function One(direct: bool, s: Stmt): Q { Q(direct, Parsed([s])) }

  /** Queries of one statement each, the i-th taking the world from ws[i] to ws[i + 1] with reply rs[i]. */
  predicate QueriesThrough(ws: seq<World>, qs: seq<Q>, rs: seq<Response>) {
    && |ws| == |qs| + 1 && |rs| == |qs|
    && forall i :: 0 <= i < |qs| ==> QueryDoes(ws[i], qs[i], ws[i + 1], rs[i])
  }

  predicate QueryDoes(w: World, q: Q, v: World, r: Response) {
    && q.text.Parsed? && |q.text.stmts| == 1 && q.text.stmts[0].Plain?
    && OutcomeOf(q.direct, q.text.stmts[0], w) == Done(v, r)
  }

  lemma {:induction false} BlockOfQueries(a: Session, ws: seq<World>, qs: seq<Q>, rs: seq<Response>, ok: World -> bool)
    requires a.mode == Open && QueriesThrough(ws, qs, rs) && ws[0] == a.cur
    ensures var (b, out) := RunQueries(a, qs, ok);
            && b == Session(Open, a.base, ws[|qs|]) && |out| == |qs|
            && forall i :: 0 <= i < |qs| ==> out[i] == Replies([rs[i]])
    decreases |qs|
  {
    if qs != [] {
      assert QueryDoes(ws[0], qs[0], ws[1], rs[0]);
      var q := qs[0];
      assert q.text.stmts == [q.text.stmts[0]];
      StatementDone(q.direct, a, q.text.stmts[0], ws[1], rs[0], ok);
      BlockOfQueries(Session(Open, a.base, ws[1]), ws[1..], qs[1..], rs[1..], ok);
    }
  }

  /**
    A transaction over any number of queries, the backends mixed freely: BEGIN, queries
    that succeed, COMMIT or ROLLBACK. Nothing is committed before the end, where all of
    the work is, or none of it.
  */
  lemma TransactionLife(a: Session, first: bool, ws: seq<World>, qs: seq<Q>, rs: seq<Response>, last: bool, c: Control,
                        ok: World -> bool)
    requires Sound(a) && a.mode == Idle && QueriesThrough(ws, qs, rs) && ws[0] == a.base
    requires c != BeginStmt && (c == CommitStmt ==> ok(ws[|qs|]))
    ensures var begin, end := One(first, Ctl(BeginStmt)), One(last, Ctl(c));
            var (w, tag) := Ending(c, a.base, ws[|qs|]);
            var (b, out) := RunQueries(a, [begin] + qs + [end], ok);
            && b == Session(Idle, w, w) && |out| == |qs| + 2
            && out[0] == Replies(["BEGIN"]) && out[|qs| + 1] == Replies([tag])
            && (forall i :: 0 <= i < |qs| ==> out[i + 1] == Replies([rs[i]]))
            && RunQueries(a, [begin] + qs, ok).0 == Session(Open, a.base, ws[|qs|])
  {
    var open, full := Session(Open, a.base, a.base), Session(Open, a.base, ws[|qs|]);
    var begin, end := One(first, Ctl(BeginStmt)), One(last, Ctl(c));
    OneControl(first, a, BeginStmt, ok);
    RunOne(a, begin, ok);
    BlockOfQueries(open, ws, qs, rs, ok);
    RunQueriesAppend(a, [begin], qs, ok);
    OneControl(last, full, c, ok);
    RunOne(full, end, ok);
    RunQueriesAppend(a, [begin] + qs, [end], ok);
  }

  lemma OneControl(direct: bool, a: Session, c: Control, ok: World -> bool)
    requires Sound(a) && a.mode != FailedBlock
    ensures c == BeginStmt && a.mode == Idle ==>
              Query(direct, a, [Ctl(c)], ok) == (Session(Open, a.base, a.base), Replies(["BEGIN"]))
    ensures c != BeginStmt && a.mode == Open && (c == CommitStmt ==> ok(a.cur)) ==>
              var (w, tag) := Ending(c, a.base, a.cur);
              Query(direct, a, [Ctl(c)], ok) == (Session(Idle, w, w), Replies([tag]))
  {
    SpiSeqOne(a, Ctl(c), ok);
  }
}
