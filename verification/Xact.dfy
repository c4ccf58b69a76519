/**
  PostgreSQL's transaction-block states and the entry points the drivers call,
  as a table. Each entry point requires the states it expects: calling it in any
  other state raises inside the server, and reading the transaction snapshot in an
  aborted block is an assertion failure there.
*/
module Xact {
  datatype Block =
    | DefaultBlock | Started | ImplicitInProgress | Begin | InProgress | End | Abort | AbortEnd | AbortPending

  type Table = map<string, string>

  /**
    Everything a transaction can change: tables, session settings, and what else a
    session keeps in its process: temporary objects, held cursors, LISTEN
    registrations, settings exempt from RESET ALL. `local` is empty in a new process.
  */
  datatype World = World(db: Table, settings: Table, local: Table)

  /** The backend process: what is committed, what the open transaction sees, and the two stacks. */
  datatype Pg = Pg(block: Block, committed: World, working: World, snapshots: nat, spi: nat)

  predicate IsAborted(p: Pg) { p.block == Abort }

  predicate IsTransactionBlock(p: Pg) { p.block != DefaultBlock && p.block != Started }

  function Start(p: Pg): Pg
    requires p.block in {DefaultBlock, ImplicitInProgress, InProgress, Abort}
  {
    if p.block == DefaultBlock then p.(block := Started) else p
  }

  /** Does `CommitTransactionCommand` run an actual commit here, where deferred checks may raise? */
  predicate Commits(p: Pg) { p.block == Started || p.block == End }

  function Discard(p: Pg, b: Block): Pg {
    p.(block := b, working := p.committed, snapshots := 0, spi := 0)
  }

  /** `CommitTransactionCommand` when nothing raises; inside a block it only increments the command counter. */
  function Commit(p: Pg): Pg
    requires p.block != DefaultBlock && p.snapshots == 0 && p.spi == 0
  {
    match p.block
    case Started => p.(block := DefaultBlock, committed := p.working)
    case End => p.(block := DefaultBlock, committed := p.working)
    case Begin => p.(block := InProgress)
    case AbortEnd => Discard(p, DefaultBlock)
    case AbortPending => Discard(p, DefaultBlock)
    case _ => p
  }

  /** An error inside an explicit block leaves it aborted; anywhere else it ends the transaction. */
  function AbortCurrent(p: Pg): Pg {
    match p.block
    case InProgress => Discard(p, Abort)
    case Abort => p.(snapshots := 0, spi := 0)
    case _ => Discard(p, DefaultBlock)
  }

  function AbortOutOfAny(p: Pg): Pg { Discard(p, DefaultBlock) }

  function BeginImplicit(p: Pg): Pg {
    if p.block == Started then p.(block := ImplicitInProgress) else p
  }

  function EndImplicit(p: Pg): Pg {
    if p.block == ImplicitInProgress then p.(block := Started) else p
  }

  /** BEGIN; inside a block the server only warns. */
  function BeginBlock(p: Pg): Pg
    requires p.block in {Started, ImplicitInProgress, InProgress}
  {
    if p.block == InProgress then p else p.(block := Begin)
  }

  /** COMMIT; outside a block the server only warns. */
  function EndBlock(p: Pg): Pg
    requires p.block in {Started, ImplicitInProgress, InProgress, Abort}
  {
    match p.block
    case Started => p
    case Abort => p.(block := AbortEnd)
    case _ => p.(block := End)
  }

  /** ROLLBACK. */
  function UserAbort(p: Pg): Pg
    requires p.block in {Started, ImplicitInProgress, InProgress, Abort}
  {
    p.(block := if p.block == Abort then AbortEnd else AbortPending)
  }

  function PushSnapshot(p: Pg): Pg
    requires p.block !in {DefaultBlock, Abort}
  {
    p.(snapshots := p.snapshots + 1)
  }

  function PopSnapshot(p: Pg): Pg
    requires p.snapshots > 0
  {
    p.(snapshots := p.snapshots - 1)
  }

  function SpiConnect(p: Pg): Pg { p.(spi := p.spi + 1) }

  function SpiFinish(p: Pg): Pg
    requires p.spi > 0
  {
    p.(spi := p.spi - 1)
  }

  // ---------------------------------------------------------------------------
  // Statements
  // ---------------------------------------------------------------------------

  type Response = string

  /** One execution: done, refused by the driver with a typed error, or a server ERROR. */
  datatype Outcome = Done(world: World, resp: Response) | Typed(world: World) | Raise

  datatype Control = BeginStmt | CommitStmt | RollbackStmt

  /**
    A statement is an arbitrary function of the world it sees. `connects` and
    `finishes` say whether the SPI session opens and closes cleanly around it.
  */
  datatype Stmt =
    | Plain(needsSnapshot: bool, run: World -> Outcome, connects: bool, finishes: bool)
    | Ctl(control: Control)

  predicate IsExit(s: Stmt) { s.Ctl? && s.control != BeginStmt }

  datatype QueryError = InFailedBlock | TypedError | ServerError

  /** The answer to one simple query; `Unwound` is a panic that leaves the driver and takes the slot process down. */
  datatype QueryResult = Replies(resps: seq<Response>) | Failed(error: QueryError) | Unwound

  /** The state between two queries. */
  predicate Quiescent(p: Pg) {
    && p.block in {DefaultBlock, InProgress, Abort}
    && p.snapshots == 0 && p.spi == 0
    && (p.block != InProgress ==> p.working == p.committed)
  }

  /** The backend process as the drivers see it; `commitOk` is the commit-time check of deferred constraints. */
  class Backend {
    var pg: Pg
    const commitOk: World -> bool

    constructor (w: World, commitOk: World -> bool)
      ensures pg == Pg(DefaultBlock, w, w, 0, 0) && this.commitOk == commitOk
    {
      pg := Pg(DefaultBlock, w, w, 0, 0);
      this.commitOk := commitOk;
    }
  }
}
