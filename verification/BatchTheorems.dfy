/** What the batch semantics promise the client: segments, atomicity, agreement of the backends. */
module BatchTheorems {
  import opened Xact
  import opened BatchSpec

  // ---------------------------------------------------------------------------
  // Segments
  // ---------------------------------------------------------------------------

  lemma {:induction false} RunPlainCount(w: World, seg: seq<Stmt>)
    requires forall s :: s in seg ==> s.Plain?
    ensures RunPlain(w, seg).Ran? ==> |RunPlain(w, seg).resps| == |seg|
    decreases |seg|
  {
    if seg != [] && seg[0].run(w).Done? {
      RunPlainCount(seg[0].run(w).world, seg[1..]);
    }
  }

  /** A successful batch answers every statement. */
  lemma {:induction false} BatchAnswersAll(a: Session, stmts: seq<Stmt>, ok: World -> bool)
    ensures Batch(a, stmts, ok).1.Replies? ==> |Batch(a, stmts, ok).1.resps| == |stmts|
    decreases |stmts|
  {
    if stmts != [] && !(a.mode == FailedBlock && !IsExit(stmts[0])) {
      var k := SegmentLength(stmts);
      RunPlainCount(a.cur, stmts[..k]);
      match RunPlain(a.cur, stmts[..k])
      case Stopped(_) =>
      case Ran(w, rs) =>
        if k < |stmts| {
          var (c, fine) := Dispose(a.(cur := w), stmts[k].control, ok);
          if fine { BatchAnswersAll(c, stmts[k + 1..], ok); }
        }
    }
  }

  /** The first `j` statements end just behind a transaction statement, or there are none. */
  predicate Cut(stmts: seq<Stmt>, j: nat) {
    j <= |stmts| && (j == 0 || stmts[j - 1].Ctl?)
  }

  /** Running up to a cut, without committing anything that the cut does not commit. */
  function UpTo(a: Session, stmts: seq<Stmt>, j: nat, ok: World -> bool): (Session, QueryResult)
    requires Cut(stmts, j)
  {
    Batch(a, stmts[..j], ok)
  }

  lemma SegmentOfPrefix(stmts: seq<Stmt>, j: nat)
    requires SegmentLength(stmts) < j <= |stmts|
    ensures SegmentLength(stmts[..j]) == SegmentLength(stmts)
    decreases |stmts|
  {
    if !stmts[0].Ctl? {
      assert stmts[..j][1..] == stmts[1..][..j - 1];
      SegmentOfPrefix(stmts[1..], j - 1);
    }
  }

  /** The error is in the first segment, or in the statement that ends it. */
  predicate FailsAtOnce(a: Session, stmts: seq<Stmt>, ok: World -> bool) {
    stmts != [] &&
    ((a.mode == FailedBlock && !IsExit(stmts[0])) ||
     var k := SegmentLength(stmts);
     match RunPlain(a.cur, stmts[..k])
     case Stopped(_) => true
     case Ran(w, _) =>
       var b := a.(cur := w);
       if k == |stmts| then b.mode != Open && !Keep(b, ok).1 else !Dispose(b, stmts[k].control, ok).1)
  }

  /** The statements in front of the first transaction statement. */
  function SegmentRun(a: Session, stmts: seq<Stmt>): Ran {
    RunPlain(a.cur, stmts[..SegmentLength(stmts)])
  }

  /** With session `c` at a cut and `rest` behind it, the error is in the first segment of `rest`, and `b` is left. */
  predicate FailsBehind(c: Session, rest: seq<Stmt>, b: Session, ok: World -> bool) {
    && FailsAtOnce(c, rest, ok)
    && b.base == c.base && b.cur == c.base
    && (b.mode == FailedBlock <==> c.mode == FailedBlock || (c.mode == Open && SegmentRun(c, rest).Stopped?))
  }

  /** The j-th cut is where the failing segment of the batch starts, and nothing from there on survives. */
  predicate FailsFrom(a: Session, stmts: seq<Stmt>, j: nat, ok: World -> bool) {
    && Cut(stmts, j) && UpTo(a, stmts, j, ok).1.Replies?
    && FailsBehind(UpTo(a, stmts, j, ok).0, stmts[j..], Batch(a, stmts, ok).0, ok)
  }

  /**
    When a batch fails, it fails inside one segment: everything up to the last
    transaction statement before the error stands as if the batch had ended there,
    and everything after it is undone. A block is left failed just when it was open at
    that cut and a statement went wrong in it, or when it was failed to begin with.
  */
  lemma {:induction false} FailedSegmentUndone(a: Session, stmts: seq<Stmt>, ok: World -> bool)
    requires Sound(a) && Batch(a, stmts, ok).1.Failed?
    ensures exists j: nat :: FailsFrom(a, stmts, j, ok)
    decreases |stmts|
  {
    if FailsAtOnce(a, stmts, ok) {
      assert stmts[..0] == [] && stmts[0..] == stmts;
      assert FailsFrom(a, stmts, 0, ok);
    } else {
      var m := FirstCut(a, stmts, ok);
      var c := UpTo(a, stmts, m, ok).0;
      FailedSegmentUndone(c, stmts[m..], ok);
      var i: nat :| FailsFrom(c, stmts[m..], i, ok);
      FailedLater(a, stmts, m, i, ok);
    }
  }

  /** A batch that does not fail at once gets to a first cut. */
  lemma FirstCut(a: Session, stmts: seq<Stmt>, ok: World -> bool) returns (m: nat)
    requires Sound(a) && Batch(a, stmts, ok).1.Failed? && !FailsAtOnce(a, stmts, ok)
    ensures 0 < m && Cut(stmts, m) && UpTo(a, stmts, m, ok).1.Replies?
    ensures var c := UpTo(a, stmts, m, ok).0;
            Sound(c) && Batch(c, stmts[m..], ok).1.Failed?
  {
    HeadReplies(a, stmts, ok);
    m := SegmentLength(stmts) + 1;
    HeadIsCut(a, stmts, m, ok);
    BatchSound(a, stmts[..m], ok);
    CutComposes(a, stmts, m, ok);
  }

  lemma HeadReplies(a: Session, stmts: seq<Stmt>, ok: World -> bool)
    requires Batch(a, stmts, ok).1.Failed? && !FailsAtOnce(a, stmts, ok)
    ensures SegmentLength(stmts) < |stmts| && Head(a, stmts, ok).1.Replies?
  {
  }

  lemma HeadIsCut(a: Session, stmts: seq<Stmt>, m: nat, ok: World -> bool)
    requires SegmentLength(stmts) + 1 == m <= |stmts| && Head(a, stmts, ok).1.Replies?
    ensures Cut(stmts, m) && UpTo(a, stmts, m, ok).1.Replies?
  {
    var front := stmts[..m];
    assert SegmentLength(front) + 1 == |front| && Head(a, front, ok).1.Replies? by {
      HeadOfPrefix(a, stmts, m, ok);
    }
    assert Batch(a, front, ok).1.Replies? by {
      HeadAlone(a, front, ok);
    }
  }

  lemma HeadAlone(a: Session, front: seq<Stmt>, ok: World -> bool)
    requires SegmentLength(front) + 1 == |front|
    ensures Batch(a, front, ok).1.Replies? <==> Head(a, front, ok).1.Replies?
  {
    BatchHead(a, front, ok);
    var none := front[SegmentLength(front) + 1..];
    assert none == [];
  }

  lemma CutBehindSegment(stmts: seq<Stmt>, j: nat)
    requires Cut(stmts, j) && j > 0
    ensures SegmentLength(stmts) < j
  {
    var k := SegmentLength(stmts);
    assert forall i :: 0 <= i < k ==> stmts[i] == stmts[..k][i] && stmts[..k][i] in stmts[..k];
  }

  /** What a batch makes of its first segment and the transaction statement behind it. */
  function Head(a: Session, stmts: seq<Stmt>, ok: World -> bool): (Session, QueryResult)
    requires SegmentLength(stmts) < |stmts|
  {
    var k := SegmentLength(stmts);
    if a.mode == FailedBlock && !IsExit(stmts[0]) then (a, Failed(InFailedBlock))
    else match RunPlain(a.cur, stmts[..k])
      case Stopped(e) => (Undo(a), Failed(e))
      case Ran(w, rs) =>
        var b := a.(cur := w);
        var (c, fine) := Dispose(b, stmts[k].control, ok);
        (c, if fine then Replies(rs + [Tag(b, stmts[k].control)]) else Failed(ServerError))
  }

  /** `q` behind `h`, if there is anything to go on from. */
  function Behind(h: (Session, QueryResult), q: (Session, QueryResult)): (Session, QueryResult) {
    if h.1.Replies? then Prefix(h.1.resps, q) else h
  }

  lemma BatchHead(a: Session, stmts: seq<Stmt>, ok: World -> bool)
    requires SegmentLength(stmts) < |stmts|
    ensures var h := Head(a, stmts, ok);
            Batch(a, stmts, ok) == Behind(h, Batch(h.0, stmts[SegmentLength(stmts) + 1..], ok))
  {
  }

  lemma HeadOfPrefix(a: Session, stmts: seq<Stmt>, j: nat, ok: World -> bool)
    requires SegmentLength(stmts) < j <= |stmts|
    ensures SegmentLength(stmts[..j]) == SegmentLength(stmts) && Head(a, stmts[..j], ok) == Head(a, stmts, ok)
  {
    SegmentOfPrefix(stmts, j);
    assert stmts[..j][..SegmentLength(stmts)] == stmts[..SegmentLength(stmts)];
  }

  /** A batch and its prefix up to a cut begin alike. */
  lemma TwoBatches(a: Session, stmts: seq<Stmt>, j: nat, ok: World -> bool) returns (h: (Session, QueryResult))
    requires Cut(stmts, j) && j > 0
    ensures var m := SegmentLength(stmts) + 1;
            && m <= j
            && Batch(a, stmts, ok) == Behind(h, Batch(h.0, stmts[m..], ok))
            && Batch(a, stmts[..j], ok) == Behind(h, Batch(h.0, stmts[m..][..j - m], ok))
  {
    CutBehindSegment(stmts, j);
    h := Head(a, stmts, ok);
    var m := SegmentLength(stmts) + 1;
    BatchHead(a, stmts, ok);
    HeadOfPrefix(a, stmts, j, ok);
    BatchHead(a, stmts[..j], ok);
    assert stmts[..j][m..] == stmts[m..][..j - m];
  }

  /** A batch is what runs up to a cut, with the rest behind it. */
  lemma {:induction false} CutComposes(a: Session, stmts: seq<Stmt>, j: nat, ok: World -> bool)
    requires Cut(stmts, j)
    ensures var u := UpTo(a, stmts, j, ok);
            Batch(a, stmts, ok) == Behind(u, Batch(u.0, stmts[j..], ok))
    decreases |stmts|
  {
    if j == 0 {
      assert stmts[..0] == [] && stmts[0..] == stmts;
      PrefixNone(Batch(a, stmts, ok));
    } else {
      var h := TwoBatches(a, stmts, j, ok);
      var m := SegmentLength(stmts) + 1;
      assert j - m > 0 ==> stmts[m..][j - m - 1] == stmts[j - 1];
      CutComposes(h.0, stmts[m..], j - m, ok);
      assert stmts[m..][j - m..] == stmts[j..];
      BehindTwice(h, UpTo(h.0, stmts[m..], j - m, ok), stmts[j..], ok);
    }
  }

  lemma BehindTwice(h: (Session, QueryResult), v: (Session, QueryResult), rest: seq<Stmt>, ok: World -> bool)
    ensures var u := Behind(h, v);
            Behind(h, Behind(v, Batch(v.0, rest, ok))) == Behind(u, Batch(u.0, rest, ok))
  {
    if h.1.Replies? && v.1.Replies? {
      PrefixTwice(h.1.resps, v.1.resps, Batch(v.0, rest, ok));
    }
  }

  /** Up to one cut and from there to the next. */
  lemma CutThenCut(a: Session, stmts: seq<Stmt>, m: nat, i: nat, ok: World -> bool)
    requires Cut(stmts, m) && Cut(stmts[m..], i)
    ensures Cut(stmts, m + i)
    ensures var u := UpTo(a, stmts, m, ok);
            UpTo(a, stmts, m + i, ok) == Behind(u, UpTo(u.0, stmts[m..], i, ok))
  {
    var front := stmts[..m + i];
    assert i > 0 ==> stmts[m..][i - 1] == stmts[m + i - 1];
    assert front[..m] == stmts[..m] && front[m..] == stmts[m..][..i];
    assert Cut(front, m);
    CutComposes(a, front, m, ok);
  }

  lemma FailedLater(a: Session, stmts: seq<Stmt>, m: nat, i: nat, ok: World -> bool)
    requires Cut(stmts, m) && UpTo(a, stmts, m, ok).1.Replies?
    requires FailsFrom(UpTo(a, stmts, m, ok).0, stmts[m..], i, ok)
    ensures FailsFrom(a, stmts, m + i, ok)
  {
    CutThenCut(a, stmts, m, i, ok);
    CutComposes(a, stmts, m, ok);
    assert stmts[m..][i..] == stmts[m + i..];
  }

  // ---------------------------------------------------------------------------
  // Batches without transaction statements
  // ---------------------------------------------------------------------------

  lemma {:induction false} PlainSegment(stmts: seq<Stmt>)
    requires NoControl(stmts)
    ensures SegmentLength(stmts) == |stmts|
  {
    if stmts != [] { PlainSegment(stmts[1..]); }
  }

  lemma ViaSpiPlain(stmts: seq<Stmt>)
    requires NoControl(stmts)
    ensures NoControl(AllViaSpi(stmts))
  {
  }

  /** The statement's outcomes through SPI. */
  function SpiRun(w: World, stmts: seq<Stmt>): Ran
    requires NoControl(stmts)
  {
    ViaSpiPlain(stmts);
    RunPlain(w, AllViaSpi(stmts))
  }

  /**
    All or nothing: started idle, a batch of plain statements commits the effect of
    all of them or leaves the committed world untouched; started inside a block it
    stays open with all of the work or is left failed with none. This is exact:
    success happens just when every statement succeeds and, outside a block, the commit does.
  */
  lemma SpiBatchAtomic(a: Session, stmts: seq<Stmt>, ok: World -> bool)
    requires |stmts| > 1 && NoControl(stmts) && a.mode != FailedBlock && Sound(a)
    ensures var (b, r) := SpiQuery(a, stmts, ok);
            var all := SpiRun(a.cur, stmts);
            && !r.Unwound?
            && (r.Replies? <==> all.Ran? && (a.mode == Idle ==> ok(all.world)))
            && (r.Replies? && a.mode == Idle ==> b == Session(Idle, all.world, all.world))
            && (r.Replies? && a.mode == Open ==> b == Session(Open, a.base, all.world))
            && (r.Failed? && a.mode == Idle ==> b == a)
            && (r.Failed? && a.mode == Open ==> b == Session(FailedBlock, a.base, a.base))
  {
    var via := AllViaSpi(stmts);
    ViaSpiPlain(stmts);
    PlainSegment(via);
    assert via[..|via|] == via;
  }

  lemma SpiSeqOne(a: Session, s: Stmt, ok: World -> bool)
    ensures SpiSeq(a, [s], ok) == SpiOne(a, s, ok)
  {
    var (b, r) := SpiOne(a, s, ok);
    assert [s][1..] == [];
    assert SpiSeq(b, [], ok) == (b, Replies([]));
    if r.Replies? {
      assert r.resps + [] == r.resps;
    }
  }

  /** Two outcomes that differ at most in the reply. */
  predicate SameOutcome(x: Outcome, y: Outcome) {
    match x
    case Done(w, _) => y.Done? && y.world == w
    case Typed(w) => y == Typed(w)
    case Raise => y.Raise?
  }

  /**
    The same statements on the two backends: `ds` as the direct one runs them and `ss`
    as SPI does, each with its own replies. SPI answers a statement without result
    rows with the tag OK, the direct backend with the statement's own tag.
  */
  ghost predicate Counterparts(ds: seq<Stmt>, ss: seq<Stmt>) {
    && |ds| == |ss| && NoControl(ds) && NoControl(ss)
    && forall i, w :: 0 <= i < |ds| ==> SameOutcome(ds[i].run(w), SpiOutcome(ss[i], w))
  }

  predicate SameRan(x: Ran, y: Ran) {
    match x
    case Ran(w, rs) => y.Ran? && y.world == w && |y.resps| == |rs|
    case Stopped(e) => y == Stopped(e)
  }

  predicate SameResult(x: QueryResult, y: QueryResult) {
    match x
    case Replies(rs) => y.Replies? && |y.resps| == |rs|
    case _ => y == x
  }

  lemma {:induction false} CounterpartsRun(w: World, ds: seq<Stmt>, ss: seq<Stmt>)
    requires Counterparts(ds, ss)
    ensures NoControl(AllViaSpi(ss)) && SameRan(RunPlain(w, ds), RunPlain(w, AllViaSpi(ss)))
    decreases |ds|
  {
    ViaSpiPlain(ss);
    if ds != [] {
      var via := AllViaSpi(ss);
      assert SameOutcome(ds[0].run(w), SpiOutcome(ss[0], w)) && via[0].run(w) == SpiOutcome(ss[0], w);
      assert via[1..] == AllViaSpi(ss[1..]);
      if ds[0].run(w).Done? {
        CounterpartsRun(ds[0].run(w).world, ds[1..], ss[1..]);
      }
    }
  }

  /**
    On a query without transaction statements the two backends leave the same session
    and the same error or the same number of replies, from every state.
  */
  lemma BackendsAgree(a: Session, ds: seq<Stmt>, ss: seq<Stmt>, ok: World -> bool)
    requires Counterparts(ds, ss)
    ensures var (b, x) := DirectQuery(a, ds, ok);
            var (c, y) := SpiQuery(a, ss, ok);
            b == c && SameResult(x, y)
  {
    if |ds| > 1 {
      var via := AllViaSpi(ss);
      CounterpartsRun(a.cur, ds, ss);
      PlainSegment(ds);
      PlainSegment(via);
      assert via[..|via|] == via && ds[..|ds|] == ds;
    } else if |ds| == 1 {
      assert SameOutcome(ds[0].run(a.cur), SpiOutcome(ss[0], a.cur));
      assert ss == [ss[0]];
      SpiSeqOne(a, ss[0], ok);
    }
  }

  function Put(k: string): Stmt {
    Plain(true, (w: World) => Done(w.(db := w.db[k := k]), "INSERT"), true, true)
  }

  function Bad(): Stmt { Plain(true, (w: World) => Raise, true, true) }

  /**
    A batch that holds a transaction statement runs piecemeal on the SPI backend:
    work in front of an error stays committed there, where the direct backend undoes it.
  */
  lemma MixedBatchNotAtomicOnSpi(w: World)
    requires "k" !in w.db
    ensures var stmts, a := [Put("k"), Bad(), Ctl(BeginStmt)], Session(Idle, w, w);
            var yes := (_: World) => true;
            && DirectQuery(a, stmts, yes) == (a, Failed(ServerError))
            && SpiQuery(a, stmts, yes).1 == Failed(ServerError)
            && "k" in SpiQuery(a, stmts, yes).0.base.db
  {
    var stmts, a := [Put("k"), Bad(), Ctl(BeginStmt)], Session(Idle, w, w);
    var yes := (_: World) => true;
    FoldIsBatch(a, stmts, yes);
    assert stmts[1..] == [Bad(), Ctl(BeginStmt)] && stmts[1..][1..] == [Ctl(BeginStmt)];
    assert !NoControl(stmts) by { assert stmts[2].Ctl?; }
    var b := SpiOne(a, Put("k"), yes).0;
    assert b.base.db == w.db["k" := "k"];
    assert SpiSeq(b, stmts[1..], yes) == (b, Failed(ServerError));
  }

  // ---------------------------------------------------------------------------
  // A batch of one
  // ---------------------------------------------------------------------------

  /** The commit at the end of this statement runs and is refused by a deferred check. */
  predicate CommitRefused(a: Session, s: Stmt, ok: World -> bool) {
    match s
    case Plain(_, run, _, _) =>
      a.mode == Idle && !run(a.cur).Raise? && !ok(run(a.cur).world)
    case Ctl(c) => c == CommitStmt && a.mode != FailedBlock && !ok(a.cur)
  }

  /** A typed error that the single-statement path would let stand. */
  predicate TypedErrorKept(a: Session, s: Stmt) {
    s.Plain? && a.mode != FailedBlock && s.run(a.cur).Typed? && (a.mode == Open || s.run(a.cur).world != a.base)
  }

  /**
    The single-statement path and the batch loop on a one-element list agree
    exactly when neither a deferred check refuses the commit nor a typed error
    leaves work behind: the one escapes as a panic, the other is committed.
  */
  lemma BatchOfOne(a: Session, s: Stmt, ok: World -> bool)
    requires Sound(a)
    ensures DirectOne(a, s, ok) == Batch(a, [s], ok) <==> !CommitRefused(a, s, ok) && !TypedErrorKept(a, s)
  {
    FoldIsBatch(a, [s], ok);
    assert [s][1..] == [];
    var (b, r) := BatchStep(a, s, true, ok);
    if r.Replies? {
      assert r.resps + [] == r.resps;
    }
  }

  /** A deferred check refusing the commit is caught by the batch loop, and escapes the single-statement path. */
  lemma RefusedCommitEscapes(w: World)
    ensures var a, no := Session(Idle, w, w), (_: World) => false;
            && Batch(a, [Put("k")], no) == (a, Failed(ServerError))
            && DirectOne(a, Put("k"), no) == (a, Unwound)
  {
    var no := (_: World) => false;
    FoldIsBatch(Session(Idle, w, w), [Put("k")], no);
    assert BatchStep(Session(Idle, w, w), Put("k"), true, no) == (Session(Idle, w, w), Failed(ServerError));
  }

  /** Outside an open block nothing uncommitted is ever left, whatever the query and the backend. */
  lemma QuerySound(direct: bool, a: Session, text: QueryText, ok: World -> bool)
    requires Sound(a)
    ensures Sound(Answer(direct, a, text, ok).0)
  {
    if text.Parsed? {
      BatchSound(a, text.stmts, ok);
      BatchSound(a, AllViaSpi(text.stmts), ok);
      SeqSound(a, text.stmts, ok);
    }
  }

  lemma {:induction false} BatchSound(a: Session, stmts: seq<Stmt>, ok: World -> bool)
    requires Sound(a)
    ensures Sound(Batch(a, stmts, ok).0)
    decreases |stmts|
  {
    if stmts != [] && !(a.mode == FailedBlock && !IsExit(stmts[0])) {
      var k := SegmentLength(stmts);
      match RunPlain(a.cur, stmts[..k])
      case Stopped(_) =>
      case Ran(w, rs) =>
        if k < |stmts| {
          var (c, fine) := Dispose(a.(cur := w), stmts[k].control, ok);
          if fine { BatchSound(c, stmts[k + 1..], ok); }
        }
    }
  }

  lemma {:induction false} SeqSound(a: Session, stmts: seq<Stmt>, ok: World -> bool)
    requires Sound(a)
    ensures Sound(SpiSeq(a, stmts, ok).0)
    decreases |stmts|
  {
    if stmts != [] {
      var (b, r) := SpiOne(a, stmts[0], ok);
      if r.Replies? { SeqSound(b, stmts[1..], ok); }
    }
  }
}
