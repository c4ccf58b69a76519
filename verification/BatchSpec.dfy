/**
  What a simple query means, without block states: a session is idle, inside an
  open block, or inside a failed one, over a committed world and a current one. A
  batch is cut into segments at its transaction statements.
*/
module BatchSpec {
  import opened Xact

  datatype Mode = Idle | Open | FailedBlock

  datatype Session = Session(mode: Mode, base: World, cur: World)

  function Abstract(p: Pg): Session {
    Session(if p.block == InProgress then Open else if p.block == Abort then FailedBlock else Idle,
            p.committed, p.working)
  }

  /** An error undoes everything since the last commit; an open block stays behind, failed. */
  function Undo(a: Session): Session {
    Session(if a.mode == Open then FailedBlock else a.mode, a.base, a.base)
  }

  datatype Ran = Ran(world: World, resps: seq<Response>) | Stopped(error: QueryError)

  /** Plain statements one after another, up to the first error. */
  function RunPlain(w: World, seg: seq<Stmt>): Ran
    requires forall s :: s in seg ==> s.Plain?
    decreases |seg|
  {
    if seg == [] then Ran(w, [])
    else match seg[0].run(w)
      case Raise => Stopped(ServerError)
      case Typed(_) => Stopped(TypedError)
      case Done(w', r) =>
        match RunPlain(w', seg[1..])
        case Stopped(e) => Stopped(e)
        case Ran(w'', rs) => Ran(w'', [r] + rs)
  }

  /** Length of the segment before the first transaction statement. */
  function SegmentLength(stmts: seq<Stmt>): (k: nat)
    ensures k <= |stmts|
    ensures forall s :: s in stmts[..k] ==> s.Plain?
    ensures k < |stmts| ==> stmts[k].Ctl?
  {
    if stmts == [] || stmts[0].Ctl? then 0
    else
      var k := 1 + SegmentLength(stmts[1..]);
      assert stmts[..k] == [stmts[0]] + stmts[1..][..k - 1];
      k
  }

  function Tag(a: Session, c: Control): Response {
    match c
    case BeginStmt => "BEGIN"
    case CommitStmt => if a.mode == FailedBlock then "ROLLBACK" else "COMMIT"
    case RollbackStmt => "ROLLBACK"
  }

  /** Make the current work permanent, if the commit-time check lets it. */
  function Keep(a: Session, ok: World -> bool): (Session, bool) {
    if ok(a.cur) then (Session(Idle, a.cur, a.cur), true) else (Session(Idle, a.base, a.base), false)
  }

  /** A transaction statement disposes of the segment it ends. */
  function Dispose(a: Session, c: Control, ok: World -> bool): (Session, bool) {
    match c
    case BeginStmt => (a.(mode := Open), true)
    case CommitStmt => if a.mode == FailedBlock then (Session(Idle, a.base, a.base), true) else Keep(a, ok)
    case RollbackStmt => (Session(Idle, a.base, a.base), true)
  }

  function Prefix(rs: seq<Response>, q: (Session, QueryResult)): (Session, QueryResult) {
    match q.1
    case Replies(more) => (q.0, Replies(rs + more))
    case other => q
  }

  /** The meaning of a batch run as one unit. */
  function Batch(a: Session, stmts: seq<Stmt>, ok: World -> bool): (Session, QueryResult)
    decreases |stmts|
  {
    if stmts == [] then (a, Replies([]))
    else if a.mode == FailedBlock && !IsExit(stmts[0]) then (a, Failed(InFailedBlock))
    else
      var k := SegmentLength(stmts);
      match RunPlain(a.cur, stmts[..k])
      case Stopped(e) => (Undo(a), Failed(e))
      case Ran(w, rs) =>
        var b := a.(cur := w);
        if k == |stmts| then
          if b.mode == Open then (b, Replies(rs))
          else
            var (c, kept) := Keep(b, ok);
            (c, if kept then Replies(rs) else Failed(ServerError))
        else
          var (c, fine) := Dispose(b, stmts[k].control, ok);
          if !fine then (c, Failed(ServerError))
          else Prefix(rs + [Tag(b, stmts[k].control)], Batch(c, stmts[k + 1..], ok))
  }

  predicate Sound(a: Session) { a.mode != Open ==> a.cur == a.base }

  // ---------------------------------------------------------------------------
  // One statement at a time
  // ---------------------------------------------------------------------------

  /** A session in the middle of a batch may hold uncommitted work without an explicit block. */
  function BatchStep(a: Session, s: Stmt, last: bool, ok: World -> bool): (Session, QueryResult) {
    if a.mode == FailedBlock && !IsExit(s) then (a, Failed(InFailedBlock))
    else match s
      case Plain(_, run, _, _) =>
        (match run(a.cur)
         case Raise => (Undo(a), Failed(ServerError))
         case Typed(_) => (Undo(a), Failed(TypedError))
         case Done(w, r) =>
           var b := a.(cur := w);
           if last && b.mode != Open then
             var (c, kept) := Keep(b, ok);
             (c, if kept then Replies([r]) else Failed(ServerError))
           else (b, Replies([r])))
      case Ctl(c) =>
        var (b, fine) := Dispose(a, c, ok);
        (b, if fine then Replies([Tag(a, c)]) else Failed(ServerError))
  }

  /** The batch, folded statement by statement. */
  function Fold(a: Session, stmts: seq<Stmt>, ok: World -> bool): (Session, QueryResult)
    decreases |stmts|
  {
    if stmts == [] then (a, Replies([]))
    else
      var (b, r) := BatchStep(a, stmts[0], |stmts| == 1, ok);
      match r
      case Replies(rs) => Prefix(rs, Fold(b, stmts[1..], ok))
      case _ => (b, r)
  }

  /** Cutting into segments and going statement by statement give the same result. */
  lemma {:induction false} FoldIsBatch(a: Session, stmts: seq<Stmt>, ok: World -> bool)
    ensures Fold(a, stmts, ok) == Batch(a, stmts, ok)
    decreases |stmts|
  {
    if stmts != [] {
      var s, rest := stmts[0], stmts[1..];
      var (b, r) := BatchStep(a, s, |stmts| == 1, ok);
      var k := SegmentLength(stmts);
      if s.Ctl? {
        assert stmts[..0] == [] && stmts[0 + 1..] == rest;
        assert a.(cur := a.cur) == a;
        assert [] + [Tag(a, s.control)] == [Tag(a, s.control)];
        if r.Replies? { FoldIsBatch(b, rest, ok); }
      } else {
        assert stmts[..k] == [s] + rest[..k - 1];
        assert stmts[..k][1..] == rest[..k - 1];
        if rest == [] {
          assert k == 1 && rest[..0] == [];
          if s.run(a.cur).Done? {
            var resp := s.run(a.cur).resp;
            assert [resp] + [] == [resp];
            assert RunPlain(a.cur, stmts[..k]) == Ran(s.run(a.cur).world, [resp]);
          }
        } else if r.Replies? {
          FoldIsBatch(b, rest, ok);
          assert stmts == [s] + rest;
          PlainThenBatch(a, b, s, rest, ok);
        }
      }
    }
  }

  /** A plain statement that succeeds in front of a batch joins the batch's first segment. */
  lemma PlainThenBatch(a: Session, b: Session, s: Stmt, rest: seq<Stmt>, ok: World -> bool)
    requires s.Plain? && rest != [] && a.mode != FailedBlock && s.run(a.cur).Done?
    requires b == a.(cur := s.run(a.cur).world)
    ensures Batch(a, [s] + rest, ok) == Prefix([s.run(a.cur).resp], Batch(b, rest, ok))
  {
    var stmts, resp := [s] + rest, s.run(a.cur).resp;
    var k := SegmentLength(rest);
    assert stmts[1..] == rest;
    assert SegmentLength(stmts) == k + 1;
    assert stmts[..k + 1] == [s] + rest[..k];
    assert stmts[..k + 1][1..] == rest[..k];
    match RunPlain(b.cur, rest[..k])
    case Stopped(e) =>
    case Ran(w, rs) =>
      if k < |rest| {
        assert stmts[k + 2..] == rest[k + 1..];
        var (c, fine) := Dispose(b.(cur := w), rest[k].control, ok);
        var tail := Batch(c, rest[k + 1..], ok);
        var tag := Tag(b, rest[k].control);
        if fine && tail.1.Replies? {
          assert [resp] + (rs + [tag] + tail.1.resps) == [resp] + rs + [tag] + tail.1.resps;
        }
      }
  }

  lemma PrefixNone(q: (Session, QueryResult))
    ensures Prefix([], q) == q
  {
    if q.1.Replies? {
      assert [] + q.1.resps == q.1.resps;
    }
  }

  lemma PrefixTwice(rs: seq<Response>, more: seq<Response>, q: (Session, QueryResult))
    ensures Prefix(rs, Prefix(more, q)) == Prefix(rs + more, q)
  {
    if q.1.Replies? {
      assert rs + (more + q.1.resps) == rs + more + q.1.resps;
    }
  }

  // ---------------------------------------------------------------------------
  // The two backends
  // ---------------------------------------------------------------------------

  /** Outside a block the work is committed now; a commit-time error is not caught there. */
  function Settle(b: Session, r: QueryResult, ok: World -> bool): (Session, QueryResult) {
    if b.mode == Open then (b, r)
    else
      var (c, kept) := Keep(b, ok);
      (c, if kept then r else Unwound)
  }

  /** A single statement on the direct backend: a typed error keeps the work done so far. */
  function DirectOne(a: Session, s: Stmt, ok: World -> bool): (Session, QueryResult) {
    if a.mode == FailedBlock && !IsExit(s) then (a, Failed(InFailedBlock))
    else match s
      case Plain(_, run, _, _) => PlainOne(a, run(a.cur), ok)
      case Ctl(c) =>
        var (b, fine) := Dispose(a, c, ok);
        (b, if fine then Replies([Tag(a, c)]) else Unwound)
  }

  function PlainOne(a: Session, o: Outcome, ok: World -> bool): (Session, QueryResult) {
    match o
    case Raise => (Undo(a), Failed(ServerError))
    case Typed(w) => Settle(a.(cur := w), Failed(TypedError), ok)
    case Done(w, r) => Settle(a.(cur := w), Replies([r]), ok)
  }

  function DirectQuery(a: Session, stmts: seq<Stmt>, ok: World -> bool): (Session, QueryResult) {
    if stmts == [] then (a, Replies([]))
    else if |stmts| == 1 then DirectOne(a, stmts[0], ok)
    else Batch(a, stmts, ok)
  }

  /** What a statement does when bracketed by an SPI session that may fail to open or close. */
  function SpiOutcome(s: Stmt, w: World): Outcome
    requires s.Plain?
  {
    if !s.connects then Typed(w)
    else match s.run(w)
      case Done(w', r) => if s.finishes then Done(w', r) else Typed(w')
      case other => other
  }

  /** The same statement seen through SPI. */
  function ViaSpi(s: Stmt): Stmt {
    if s.Plain? then Plain(true, (w: World) => SpiOutcome(s, w), true, true) else s
  }

  function AllViaSpi(stmts: seq<Stmt>): (t: seq<Stmt>)
    ensures |t| == |stmts|
  {
    seq(|stmts|, i requires 0 <= i < |stmts| => ViaSpi(stmts[i]))
  }

  /** Transaction statements bypass SPI; outside a block COMMIT and ROLLBACK do nothing at all. */
  function SpiControl(a: Session, c: Control, ok: World -> bool): (Session, QueryResult) {
    match c
    case BeginStmt => (if a.mode == Idle then a.(mode := Open) else a, Replies(["BEGIN"]))
    case CommitStmt =>
      if a.mode == Open then
        var (b, kept) := Keep(a, ok);
        (b, if kept then Replies(["COMMIT"]) else Failed(ServerError))
      else (Session(Idle, a.base, a.base), Replies(["COMMIT"]))
    case RollbackStmt => (Session(Idle, a.base, a.base), Replies(["ROLLBACK"]))
  }

  function SpiOne(a: Session, s: Stmt, ok: World -> bool): (Session, QueryResult) {
    if a.mode == FailedBlock && !IsExit(s) then (a, Failed(InFailedBlock))
    else match s
      case Plain(_, _, _, _) => PlainOne(a, SpiOutcome(s, a.cur), ok)
      case Ctl(c) => SpiControl(a, c, ok)
  }

  function SpiSeq(a: Session, stmts: seq<Stmt>, ok: World -> bool): (Session, QueryResult)
    decreases |stmts|
  {
    if stmts == [] then (a, Replies([]))
    else
      var (b, r) := SpiOne(a, stmts[0], ok);
      match r
      case Replies(rs) => Prefix(rs, SpiSeq(b, stmts[1..], ok))
      case _ => (b, r)
  }

  predicate NoControl(stmts: seq<Stmt>) {
    forall i :: 0 <= i < |stmts| ==> stmts[i].Plain?
  }

  function SpiQuery(a: Session, stmts: seq<Stmt>, ok: World -> bool): (Session, QueryResult) {
    if |stmts| > 1 && NoControl(stmts) then Batch(a, AllViaSpi(stmts), ok) else SpiSeq(a, stmts, ok)
  }

  /** A simple query once it is parsed, on the backend the session's setting picks. */
  function Query(direct: bool, a: Session, stmts: seq<Stmt>, ok: World -> bool): (Session, QueryResult) {
    if direct then DirectQuery(a, stmts, ok) else SpiQuery(a, stmts, ok)
  }

  /** What the parser makes of a query's text; an error here is reported before any block call is made. */
  datatype QueryText = Parsed(stmts: seq<Stmt>) | Unparsed(error: QueryError)

  function Answer(direct: bool, a: Session, text: QueryText, ok: World -> bool): (Session, QueryResult) {
    match text
    case Parsed(stmts) => Query(direct, a, stmts, ok)
    case Unparsed(e) => (a, Failed(e))
  }
}
