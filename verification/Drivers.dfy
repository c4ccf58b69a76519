/**
  Parts both drivers share: the outcome of a caught body, and how the server's
  block states stand for a session inside a batch.
*/
module Drivers {
  import opened Xact
  import opened BatchSpec

  /** What `catch_unwind` sees of a loop body. */
  datatype Body = BodyOk(resps: seq<Response>) | BodyErr(error: QueryError) | BodyPanic

  function ErrorOf(o: Body): QueryError
    requires !o.BodyOk?
  {
    if o.BodyErr? then o.error else ServerError
  }

  /** Between two statements of a batch: an idle session runs under an implicit block. */
  predicate Mid(p: Pg, a: Session) {
    && p.committed == a.base && p.working == a.cur && p.snapshots == 0 && p.spi == 0
    && match a.mode
       case Idle => p.block in {DefaultBlock, ImplicitInProgress} && (p.block == DefaultBlock ==> a.cur == a.base)
       case Open => p.block == InProgress
       case FailedBlock => p.block == Abort && a.cur == a.base
  }

  /** What is left once `AbortCurrentTransaction` has run. */
  predicate AbortsTo(p: Pg, a: Session) {
    Quiescent(AbortCurrent(p)) && Abstract(AbortCurrent(p)) == a
  }

  /**
    The result of a query and the state behind it. A panic that escapes the driver
    ends the process, whose exit hook aborts what is open.
  */
  predicate Leaves(p: Pg, r: QueryResult, spec: (Session, QueryResult)) {
    && r == spec.1
    && if r.Unwound? then Abstract(AbortOutOfAny(p)) == spec.0 else Quiescent(p) && Abstract(p) == spec.0
  }

  /** One iteration's outcome against the statement-level meaning. */
  predicate IterationMeans(p: Pg, o: Body, a: Session, s: Stmt, last: bool, ok: World -> bool) {
    var (b, r) := BatchStep(a, s, last, ok);
    match o
    case BodyOk(rs) => r == Replies(rs) && (if last then Quiescent(p) && Abstract(p) == b else Mid(p, b))
    case _ => r == Failed(ErrorOf(o)) && AbortsTo(p, b)
  }

  /** `CommitTransactionCommand`; a deferred check may raise, leaving the state as it was. */
  method CommitTransactionCommand(b: Backend) returns (fine: bool)
    requires b.pg.block != DefaultBlock && b.pg.snapshots == 0 && b.pg.spi == 0
    modifies b
    ensures fine <==> Commits(old(b.pg)) ==> b.commitOk(old(b.pg).working)
    ensures b.pg == if fine then Commit(old(b.pg)) else old(b.pg)
  {
    fine := Commits(b.pg) ==> b.commitOk(b.pg.working);
    if fine {
      b.pg := Commit(b.pg);
    }
  }
}
