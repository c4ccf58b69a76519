# pg_transport in Dafny

pg_transport is a PostgreSQL extension that puts its own protocol front end before
the server. A single-threaded frontend process accepts client connections and hands
each one, as a file descriptor, to a slot: a background worker that speaks the
PostgreSQL wire protocol to that client, runs its SQL, resets itself and announces
that it is ready for the next one. This project models three cores of it and proves
what each is there to guarantee.

**The pool and slot protocol.** `PoolState` gives the frontend's three containers as
values and what each pool operation does to them, `DrainRequests` which slots a drain
asks; `Pool` is the pool object with its
fields updated in place, every method proved to make the step of the transition system
(`Shows(s)` says object and system agree). `Protocol` is the whole system: frontend
tasks, slot processes, the two FIFO channels of each slot, the notifier with its queue
and single permit, drain watchdogs, and time. A step is the code between two awaits;
processes may die, sends fail, tasks be dropped, readers end and time pass at any point.
`ProtocolInv` proves one inductive invariant over all steps; `ProtocolTheorems`,
`ProtocolClients` and `ProtocolLifecycle` draw the claims about all runs from it, and
`ProtocolProgress` what can be done from every reachable state: clients served, in order
of arrival, drains completed. A run is any list of events from the empty system, so every
theorem quantified over `es` is about every reachable state. `FdPass` is the wire form of
the channels.

**Simple query.** `Xact` is PostgreSQL's table of transaction-block states, with the
states each entry point expects as its precondition, so that verifying the drivers shows
they never call one in another state and never take a snapshot in an aborted block.
`SimpleDirect` and `SpiBridge` are the two backends, as imperative drivers over that table.
`BatchSpec` is what a query means without any block states: a session is idle, in an open
block or in a failed one, and a batch is cut into segments at its transaction statements.
The drivers are proved equal to it; `BatchTheorems` proves atomicity and agreement of the
backends, `FailedBlocks` everything about failed blocks, and `Transactions` what BEGIN,
COMMIT, ROLLBACK, single statements and whole transactions do on either backend.
A statement is an arbitrary function of the visible world that succeeds, raises a server
ERROR or returns a typed error; the commit-time check is an arbitrary predicate.
`SlotProcess` puts sessions one behind another on one slot with the reset between them;
`SlotLaws` says who is served there, what stays between clients and how the loop ends.

**SCRAM-SHA-256.** `Scram`, `ScramServer`, `RolPassword` and `Sasl` hold the message
formats, the server object, the stored-verifier format and the startup handler's phase
machine (sections 3, 5.1 and 7 of RFC 5802; RFC 7677). `ScramLaws` writes the honest
exchange out and shows that no recorded one can be played again; `Admission` says exactly
which sequences of messages let a client in. HMAC and SHA-256 are arbitrary functions. `Base64` (section 4 of RFC 4648), `Decimal` and `Text` are concrete, so the
round trips are real. Text is one character per byte.

`PortalName` and `DataRow` are the anonymous-portal printer and the row encoder.

## Where the code and its own text differ

- A send that fails, or a handoff dropped while sending, leaves its slot in `in_flight` for
  as long as the process lives, although it serves nobody. `TokenExact`, `StuckIsFailedSend`,
  `StuckForGood` and `FailedSendLeaksSlot` say exactly when. The comment on the reader wrapper
  (`crates/core/src/backend/pool.rs:331-336`) rules this out for dead readers only.
- `growing` is set and cleared inside one uninterrupted step (`crates/core/src/backend/pool.rs:493-511`),
  so no other task ever finds it set: the gate is `total() < max` alone (`Pool.PollHandoff`), and
  it does not bound concurrent growth.
- `crates/core/src/backend/simple_direct.rs:331-340` calls the single-statement path equivalent to a
  batch of one. It is, except for a commit that a deferred check refuses (`RefusedCommitEscapes`).
  `BatchOfOne` is the exact condition for arbitrary statements; its clause on typed errors has no
  input today, because `run_one_direct` (`crates/core/src/backend/simple_direct.rs:710-890`) returns
  none, and only constrains statement runners to come.
- A typed error in front of COMMIT, in a query sent inside an open block, leaves the block open on the
  SPI backend and COMMIT unreached; the direct backend's batch loop would fail the block on the same
  outcome (`TypedErrorThenCommit`), which again its statement runner does not produce today.
- A statement without result rows is answered with the tag `OK` by the SPI backend
  (`crates/core/src/backend/spi_bridge.rs:808-813`) and with its own tag, such as `INSERT`, by the direct
  backend (`crates/core/src/backend/simple_direct.rs:876-881`). `BackendsAgree` therefore speaks of the
  number of replies, not of their text.
- COMMIT of a failed block is answered `ROLLBACK` by the direct backend and `COMMIT` by the SPI
  backend (`FailedBlockRecovers`); both discard the block.
- On the SPI backend a batch that holds a transaction statement is not one unit
  (`MixedBatchNotAtomicOnSpi`).
- `docs/design/bench.md:216` says an error inside BEGIN falls back to the default state. The code keeps
  the block aborted (`ErrorFailsBlock`, `FailedBlockSticky`), except for the one server ERROR that never
  reaches the block: a query that does not parse is refused with the block still open and its work still
  there to be committed (`OnlySyntaxErrorKeepsBlock`).
- The comment on `HANDOFF_WAIT` says a timed-out client is sent an error; the TCP transport only
  closes the connection, as does the model.
- The reset between clients leaves temporary objects, held cursors, LISTEN registrations and settings
  exempt from RESET ALL alone (the first three are listed as future work,
  `crates/core/src/backend/slot.rs:287-290`). The next client is served as by a new process exactly if
  none of these were left (`IsolationExact`, `TemporaryObjectsLeak`).

## Model

| member | source | states |
|---|---|---|
| ProtocolInv.StepKeeps | crates/core/src/backend/pool.rs:259-728 | whatever happens next, a container tells the truth about its slot's channels and process, every connection is where it is said to be, wakeups match ready slots, timers cover drains |
| ProtocolInv.ReachableInv | crates/core/src/backend/pool.rs:93-112 | the invariant holds in every state any run can reach |
| ProtocolTheorems.TokenExact | crates/core/src/backend/pool.rs:303-311 | a live slot in flight has exactly one of: booting, send pending, descriptor queued, session running, ready byte on its way; it has none exactly if a send to it failed earlier in the run; a ready slot waits with both channels empty |
| ProtocolTheorems.MessageMeetsIdleSlot | crates/core/src/backend/pool.rs:543-549 | no descriptor and no 'X' ever enters the channel of a slot that is not idle with both channels empty |
| ProtocolTheorems.ReadyByteFindsInFlight | crates/core/src/backend/pool.rs:416-429 | the defensive no-op branch for a ready byte is never taken; the slot becomes ready |
| ProtocolTheorems.StuckIsFailedSend | crates/core/src/backend/pool.rs:552-564 | the bookkeeping of stuck slots agrees, both ways, with the failed sends in the run itself |
| ProtocolTheorems.StuckForGood | crates/core/src/backend/pool.rs:552-564 | after a failed send its slot is never ready or draining again, whatever follows |
| ProtocolTheorems.FailedSendLeaksSlot | crates/core/src/backend/pool.rs:552-564 | a concrete run that leaks a live idle slot |
| ProtocolTheorems.NoLostWakeup | crates/core/src/backend/pool.rs:478-537 | while a handoff sleeps un-notified, ready slots are at most the notified handoffs on their way, and no permit is stored |
| ProtocolTheorems.EveryoneSettles | crates/core/src/backend/pool.rs:517-536 | once the notified handoffs have run, in any order, nobody sleeps beside a ready slot |
| ProtocolTheorems.DrainManyAt | crates/core/src/backend/pool.rs:664-686 | a reap or ceiling drain moves ready slots only, starts a watchdog for each, sends 'X' to idle ones only and touches no other slot |
| ProtocolTheorems.DrainManyPools | crates/core/src/backend/pool.rs:664-686 | draining moves no connection and changes the containers as the pool functions say |
| ProtocolTheorems.DrainRequestsSent | crates/core/src/backend/pool.rs:664-686 | in every reachable state 'X' reaches exactly the listed slots whose send succeeds and whose process lives |
| DrainRequests.EveryListedSlotAsked | crates/core/src/backend/pool.rs:652-655 | a reap and a ceiling drain ask every slot they list, once each and in order; the early return for a slot no longer ready is never taken |
| ProtocolClients.OneHome | crates/core/src/backend/pool.rs:479-564 | a connection is in exactly the one place its fate names: queue, notified, one send, one slot's channel, one slot's session, or none |
| ProtocolClients.FateMoves | crates/core/src/backend/pool.rs:479-564 | connections only move forward, and once given to a slot stay with that slot |
| ProtocolClients.DropHasCause | crates/core/src/backend/pool.rs:664-706 | a connection is lost only by its own timeout, its own failed send or the death of the process holding it; never by a drain, a reap, a watchdog or a late reader |
| ProtocolClients.EveryArrivalAccountedFor | crates/core/src/backend/pool.rs:479-564 | the connections accounted for are exactly those that came in |
| ProtocolClients.ServedAtMostOnce | crates/core/src/backend/slot.rs:168-200 | over any run a connection begins at most one session, and a finished one exactly one |
| ProtocolLifecycle.SlotLifecycle | crates/core/src/backend/pool.rs:413-472 | the only moves between containers; draining never back to ready; ids issued in order, only by accepting; readers and watchdogs touch their own slot only |
| ProtocolLifecycle.GoneIsFinal | crates/core/src/backend/pool.rs:449-472 | an id that left every container never returns, whatever runs afterwards |
| ProtocolLifecycle.SlotsConserved | crates/core/src/backend/pool.rs:123-133 | slots accepted equal `total()` plus slots gone, in every reachable state |
| ProtocolLifecycle.DrainsInTime | crates/core/src/backend/pool.rs:688-706 | if timers fire on time, a slot that starts to drain is gone DRAIN_ACK_TIMEOUT later, whatever else happens: past the deadline it is gone, and at the deadline its watchdog removes it |
| ProtocolLifecycle.WatchdogWorks | crates/core/src/backend/pool.rs:691-705 | in every reachable state a draining slot has a watchdog, which removes and shuts it from its deadline on and does nothing before |
| ProtocolLifecycle.DrainEndsAlone | crates/core/src/backend/pool.rs:688-706 | with nothing but time passing, an unanswered drain ends after 60 seconds and not before, from every reachable state |
| ProtocolLifecycle.DispatchTakesLongestIdle | crates/core/src/backend/pool.rs:543-549 | a handoff that finds a ready slot gets one with the least `last_ready_at` |
| ProtocolLifecycle.ReapKeepsFloor | crates/core/src/backend/pool.rs:620-655 | at any moment of any run one reap of C among R leaves max(R-C, min(R, floor)) ready, for every floor, and loses none |
| ProtocolLifecycle.SighupDrainsExcess | crates/core/src/backend/pool.rs:721-742 | lowering the ceiling drains exactly the min(total-max, R) slots ready longest |
| ProtocolProgress.ClientServed | crates/core/src/backend/pool.rs:478-564 | from every reachable state with a live slot first in the ready order a new client is sent to that slot, queued there and served |
| ProtocolProgress.SessionEnds | crates/core/src/backend/slot.rs:168-200 | from every reachable state a running session can end: its client is finished and the slot ready again, last in the order |
| ProtocolProgress.LongestWaiterServed | crates/core/src/backend/pool.rs:416-429 | a ready byte wakes the handoff that has waited longest, and that handoff gets the slot if no other is ready |
| ProtocolProgress.FirstComeFirstServed | crates/core/src/backend/pool.rs:517-536 | waiting handoffs keep their order over every step, newcomers stand behind all |
| ProtocolProgress.OnlyHeadWoken | crates/core/src/backend/pool.rs:517-536 | whoever is woken was first in the queue |
| ProtocolProgress.WakeupPassedOn | crates/core/src/backend/pool.rs:517-536 | a notified handoff that gives up hands its wakeup to the next in line, or stores it when nobody waits |
| ProtocolProgress.CooperativeDrain | crates/core/src/backend/pool.rs:664-686 | from every reachable state a drain that reaches a live slot ends with the slot exited, acknowledged and gone, and no client moved |
| ProtocolProgress.DrainWithoutAck | crates/core/src/backend/slot.rs:201-212 | without the ack the slot exits all the same and is gone once its reader ends |
| ProtocolProgress.ReaderEndCleans | crates/core/src/backend/pool.rs:449-472 | when a reader ends its slot is gone and shut, and no other slot or connection moves |
| ProtocolProgress.DeathDropsClient | crates/core/src/backend/pool.rs:331-342 | a process that dies loses the client queued for it or in session on it, and its slot stays where it is until its reader ends |
| ProtocolProgress.ReapTakesTheIdle | crates/core/src/backend/pool.rs:628-655 | in every reachable state a slot ready for at most 60 seconds survives every reap, and without a floor every slot ready for longer is drained |
| PoolState.AcceptPlaces | crates/core/src/backend/pool.rs:303-311 | a new slot is in flight under an unused id, all others stay put, containers stay disjoint |
| PoolState.OnReadyPlaces | crates/core/src/backend/pool.rs:416-429 | only the announcing slot moves, and only from in flight, to the back of the ready order |
| PoolState.PopReadyPlaces | crates/core/src/backend/pool.rs:543-549 | only the first ready slot moves, to in flight |
| PoolState.CleanupPlaces | crates/core/src/backend/pool.rs:449-461 | exactly the slot of the ended reader leaves |
| PoolState.DrainAckPlaces | crates/core/src/backend/pool.rs:432-442 | an ack removes its slot if and only if it was draining |
| PoolState.ToDrainingPlaces | crates/core/src/backend/pool.rs:664-673 | only a ready slot starts to drain; no other moves |
| PoolState.IdsAccountedFor | crates/core/src/backend/pool.rs:123-133 | container sizes plus gone ids add up to the counter |
| PoolState.CandidatesArePrefix | crates/core/src/backend/pool.rs:628-637 | in a sorted pool the reap candidates are exactly the longest idle, as a prefix |
| PoolState.DrainRun | crates/core/src/backend/pool.rs:652-655 | draining a run of consecutive ready slots cuts exactly that run out, keeping order and total |
| PoolState.ReapLeaves | crates/core/src/backend/pool.rs:638-655 | which block a reap cuts out, for every floor |
| PoolState.SighupDrainsOldest | crates/core/src/backend/pool.rs:721-742 | the drained slots are the first of the ready order |
| Pool.Pool.constructor | crates/core/src/backend/pool.rs:150-155 | a new pool is the empty system |
| Pool.Pool.NextSlotId | crates/core/src/backend/pool.rs:123-127 | hands out the counter and advances it |
| Pool.Pool.AcceptOne | crates/core/src/backend/pool.rs:303-311 | makes the protocol's accept step |
| Pool.Pool.NotifyOne | crates/core/src/backend/pool.rs:428 | wakes the first waiter, or stores the one permit |
| Pool.Pool.OnReady | crates/core/src/backend/pool.rs:416-429 | moves and notifies as the protocol step; an unknown id wakes nobody |
| Pool.Pool.OnDrainAck | crates/core/src/backend/pool.rs:432-442 | removes the slot from draining only |
| Pool.Pool.CleanupOrphaned | crates/core/src/backend/pool.rs:449-472 | removes the slot from the container that held it, reports which, and shuts its channel |
| Pool.Pool.TryPopReady | crates/core/src/backend/pool.rs:543-549 | takes the first ready slot, or none exactly if there is none |
| Pool.Pool.GrowGate | crates/core/src/backend/pool.rs:492-511 | a worker is spawned if and only if the pool is below the ceiling and the flag is clear; the flag is clear again afterwards |
| Pool.Pool.PollHandoff | crates/core/src/backend/pool.rs:479-537 | one turn of a handoff makes the protocol's dispatch step, growing exactly when it arrives to no ready slot below the ceiling; a stored permit only costs a round of the loop |
| Pool.Pool.RequestDrain | crates/core/src/backend/pool.rs:664-706 | moves a ready slot, starts its watchdog and has 'X' sent to it; does none of this otherwise |
| Pool.Pool.ReapOnce | crates/core/src/backend/pool.rs:620-655 | the loops together make the protocol's reap step, and return the slots sent 'X' |
| Pool.Pool.SighupReconcile | crates/core/src/backend/pool.rs:721-742 | makes the protocol's ceiling step, and returns the slots sent 'X' |
| Pool.Pool.WatchdogFires | crates/core/src/backend/pool.rs:691-705 | removes a slot that is still draining and shuts its channel, and does neither to any other |
| FdPass.RecvCtrl | crates/core/src/backend/fd_pass.rs:196-243 | each outcome of decoding one packet, if and only if: handoff takes the first rights entry, a handoff byte without one, a negative descriptor and unknown opcodes are refused, nothing read is the end |
| FdPass.Channel.SendFd | crates/core/src/backend/fd_pass.rs:92-126 | the packet of a handoff joins the end of the channel if the socket takes it; otherwise nothing changes and the caller is told |
| FdPass.Channel.SendDrainRequest | crates/core/src/backend/fd_pass.rs:132-134 | the same for a drain request |
| FdPass.ReadToEnd | crates/core/src/backend/fd_pass.rs:196-243 | a slot that reads to the end decodes exactly what was sent, in order, and empties the channel |
| FdPass.SendAndRead | crates/core/src/backend/fd_pass.rs:92-243 | send, shut and read gives back exactly the messages the socket took, in order |
| FdPass.WireBytes | crates/core/src/backend/fd_pass.rs:3-10 | the two packets written out: byte 0 with the descriptor, and 'X' alone |
| SlotProcess.SessionsIsolated | crates/core/src/backend/slot.rs:138-200 | for any control history each client's replies are those a reset process would give over what was committed by then: open transactions, settings and prepared statements of earlier clients never show |
| SlotProcess.OneReplyPerSession | crates/core/src/backend/slot.rs:168-200 | never more replies than handoffs |
| SlotProcess.IsolationExact | crates/core/src/backend/slot.rs:138-200 | after any control history and for any configured defaults, the next client gets, whatever it sends, the replies of a process started from scratch over the same database, if and only if the earlier sessions left nothing committed of what the reset does not touch |
| SlotProcess.TemporaryObjectsLeak | crates/core/src/backend/slot.rs:287-290 | two clients, the second of which sees the first one's temporary object |
| SlotProcess.SentShape | crates/core/src/backend/slot.rs:129-211 | ready bytes behind the first number the sessions served, short of at most the one that ended the slot; nothing follows the drain ack |
| SlotProcess.Slot.ServeMessages | crates/core/src/wire/pgwire_v3.rs:466-483 | replies and final state of a message sequence, by the query semantics |
| SlotProcess.Slot.ServeSession | crates/core/src/wire/pgwire_v3.rs:57-84 | a session starts from an idle SASL phase, and nothing is served unless it admitted the client |
| SlotProcess.Slot.ResetPerHandoffState | crates/core/src/backend/slot.rs:304-316 | aborts, drops prepared statements and puts settings back; what else the session kept stays |
| SlotProcess.Slot.RunSlot | crates/core/src/backend/slot.rs:129-218 | what the control loop sends, serves and counts over any control sequence |
| SlotLaws.NotAdmitted | crates/core/src/wire/pgwire_v3.rs:57-84 | a client the startup exchange did not admit has nothing served and changes nothing |
| SlotLaws.ServedExactly | crates/core/src/wire/pgwire_v3.rs:175-393 | a client's queries run, all of them, if at some delivery of its startup the catalog asked no password or an exchange was completed, and otherwise none does |
| SlotLaws.StrangerLeavesNoTrace | crates/core/src/backend/slot.rs:168-200 | a client turned away anywhere in a slot's life adds its own answer and one ready byte; everybody else is served as without it and the slot ends in the same state |
| SlotLaws.StrangerBeforeNext | crates/core/src/backend/slot.rs:168-200 | the next client's replies are the same with and without a stranger in front of it |
| SlotLaws.ResetKeepsData | crates/core/src/backend/slot.rs:304-316 | the reset keeps what was committed and what the process keeps, drops the open transaction and what was prepared, and puts settings back |
| SlotLaws.CommittedIsSeen | crates/core/src/backend/slot.rs:138-200 | over any history the next client finds in the database exactly what the last one committed |
| SlotLaws.LoopComposes | crates/core/src/backend/slot.rs:138-213 | a control sequence the loop reads through carries over unchanged to what comes behind it |
| SlotLaws.ReadyPerSession | crates/core/src/backend/slot.rs:196-199 | every session read through is answered and followed by one ready byte |
| SlotLaws.DrainAnswered | crates/core/src/backend/slot.rs:201-212 | a drain request is answered by the ack, if it can be sent, and ends the loop |
| SlotLaws.EndsSilently | crates/core/src/backend/slot.rs:138-216 | a closed socket, a signal and a receive error end the loop without another byte |
| SlotLaws.BrokenSessionIsLast | crates/core/src/backend/slot.rs:195-199 | a session that dies, or whose reset or ready byte fails, is the last one, and no ready byte follows it |
| SlotLaws.ServeComposes | crates/core/src/wire/pgwire_v3.rs:466-483 | messages are served one after another, each in the state the last one left, up to a panic |
| SlotLaws.QueryServed | crates/core/src/wire/pgwire_v3.rs:474-481 | a query runs on the backend that pg_transport.execution_backend names when it arrives |
| SlotLaws.PreparedIsUsed | crates/core/src/backend/slot.rs:253-268 | what a session prepares its later queries use, and the reset drops it |
| SimpleDirect.WithXact | crates/core/src/backend/executor.rs:112-170 | the bracket restores both stacks on every return and means the single-statement semantics; a refused commit escapes it, leaving the abort to the end of the process |
| SimpleDirect.Iteration | crates/core/src/backend/simple_direct.rs:542-622 | one pass of the batch loop means one statement of the batch, from every block state |
| SimpleDirect.ExecuteWithImplicitBlock | crates/core/src/backend/simple_direct.rs:524-652 | for every non-empty statement list and block state, the loop ends where the segment semantics says, with both stacks empty |
| SimpleDirect.ExecuteSimpleQueryDirect | crates/core/src/backend/simple_direct.rs:341-436 | the same for the whole entry point; text that does not parse is turned away before any block call |
| SpiBridge.WithSpi | crates/core/src/backend/spi.rs:148-231 | snapshot, SPI session and transaction are closed on every return; typed errors commit, panics abort; a refused commit escapes it |
| SpiBridge.HandleXactControl | crates/core/src/backend/spi_bridge.rs:629-684 | BEGIN, COMMIT and ROLLBACK beside SPI, in and out of a block |
| SpiBridge.ExecuteOneStatement | crates/core/src/backend/spi_bridge.rs:317-349 | a failed block refuses everything but an exit, before any snapshot |
| SpiBridge.ExecuteWithImplicitBlockSpi | crates/core/src/backend/spi_bridge.rs:175-302 | the SPI loop means the same segment semantics on the statements as seen through SPI |
| SpiBridge.ExecuteSimpleQuery | crates/core/src/backend/spi_bridge.rs:77-131 | one unit without transaction statements, one by one with them, nothing at all for text that does not parse |
| Drivers.CommitTransactionCommand | crates/core/src/backend/executor.rs:139-143 | commits, or leaves the state as it was when the deferred check refuses |
| BatchSpec.FoldIsBatch | crates/core/src/backend/simple_direct.rs:539-622 | going statement by statement equals cutting into segments |
| BatchTheorems.FailedSegmentUndone | crates/core/src/backend/simple_direct.rs:624-652 | a failing batch fails inside one segment: committed segments before it stand, it and all later work are undone, and a block is left failed just when it was open there and a statement went wrong, or failed to begin with |
| BatchTheorems.CutComposes | crates/core/src/backend/simple_direct.rs:539-622 | a batch is what runs up to any of its transaction statements, with the rest run from there |
| BatchTheorems.BatchAnswersAll | crates/core/src/backend/simple_direct.rs:539-622 | success answers every statement |
| BatchTheorems.SpiBatchAtomic | crates/core/src/backend/spi_bridge.rs:175-302 | all or nothing from idle; kept open or left failed inside a block; success if and only if every statement and the commit succeed |
| BatchTheorems.BackendsAgree | crates/core/src/backend/spi_bridge.rs:192-301 | without transaction statements, two lists whose statements have the same outcomes on the two backends, replies aside, leave the same session and the same error or the same number of replies, from every state and for every length |
| BatchTheorems.MixedBatchNotAtomicOnSpi | crates/core/src/backend/spi_bridge.rs:104-131 | with one they need not |
| FailedBlocks.ErrorFailsBlock | crates/core/src/backend/simple_direct.rs:341-436 | exactly when a query leaves a failed block, on either backend, from every state and wherever the block was opened: it was failed and the query does not open with an exit, or a statement goes wrong in an open block, with a server ERROR or, in a unit, any error |
| FailedBlocks.FailedBlockLoses | crates/core/src/backend/simple_direct.rs:624-652 | what such a block has lost and what the client is told: everything since the last commit, and that error |
| FailedBlocks.TypedErrorKeepsBlock | crates/core/src/backend/spi.rs:207-216 | outside a unit a typed error ends the query and keeps the block open |
| FailedBlocks.OnlySyntaxErrorKeepsBlock | crates/core/src/backend/spi_bridge.rs:95-102 | after a server ERROR a block is open if and only if it was open and the text did not parse; that error changes nothing |
| FailedBlocks.TypedErrorThenCommit | crates/core/src/backend/spi_bridge.rs:104-131 | a typed error in front of COMMIT: the block stays open on SPI; the direct batch loop would fail it |
| FailedBlocks.FailedBlockSticky | crates/core/src/backend/simple_direct.rs:403-407 | any number of queries without an exit first change nothing, and each that holds a statement is refused with 25P02, backends mixed freely |
| FailedBlocks.FailedBlockRecovers | crates/core/src/backend/spi_bridge.rs:629-684 | a query that opens with COMMIT or ROLLBACK in a failed block returns to idle with nothing of the block committed, and the rest of it runs from there, for every rest |
| FailedBlocks.FailedBlockLife | crates/core/src/backend/simple_direct.rs:475-492 | over any list of queries, backends mixed freely, from any query that fails a block, also one it opened itself, to the first exit reached: one error, refusals that change nothing, and the exit going on from what was committed before the block |
| Transactions.RollbackDiscards | crates/core/src/backend/spi_bridge.rs:672-684 | on either backend and in every state ROLLBACK returns to idle over the committed world, answers ROLLBACK, and the rest of its query runs from there, for every rest |
| Transactions.CommitKeeps | crates/core/src/backend/spi_bridge.rs:659-671 | COMMIT of an open block that the deferred checks let through makes exactly its work permanent, answers COMMIT, and the rest runs from there |
| Transactions.CommitRejected | crates/core/src/backend/spi_bridge.rs:688-697 | a refused COMMIT keeps nothing and ends the query: an error, or an escaping panic where it stands alone on the direct backend |
| Transactions.BeginOpens | crates/core/src/backend/spi_bridge.rs:643-658 | BEGIN opens a block over the committed world, changes nothing inside a block, and answers BEGIN |
| Transactions.IdleCommit | crates/core/src/backend/spi_bridge.rs:659-663 | COMMIT outside a block changes nothing |
| Transactions.StatementDone | crates/core/src/backend/simple_direct.rs:341-436 | a single statement that succeeds is committed at once outside a block and part of the block inside one |
| Transactions.StatementFailed | crates/core/src/backend/simple_direct.rs:341-436 | a single statement that goes wrong: a server ERROR undoes and fails the block, a typed error keeps the work |
| Transactions.SpiSessionFails | crates/core/src/backend/spi.rs:148-231 | an SPI session that does not open costs the answer only, one that does not close keeps the work |
| Transactions.SegmentEnds | crates/core/src/backend/simple_direct.rs:602-622 | in a direct batch BEGIN opens a block around the work so far, COMMIT makes it permanent or ends the batch without it, ROLLBACK discards it, and the rest goes on from there |
| Transactions.BatchStops | crates/core/src/backend/simple_direct.rs:624-652 | the first statement of a direct batch that goes wrong undoes all since the last commit and nothing behind it runs |
| Transactions.UnitDone | crates/core/src/backend/spi_bridge.rs:175-302 | several plain statements that succeed one after another count as one on either backend, each seeing what the last one left |
| Transactions.UnitStops | crates/core/src/backend/spi_bridge.rs:175-302 | if one of them goes wrong none of their work stays, on either backend |
| Transactions.EmptyQuery | crates/core/src/backend/simple_direct.rs:341-436 | a query without statements does nothing |
| Transactions.TransactionInOneQuery | crates/core/src/backend/spi_bridge.rs:104-131 | BEGIN, any statements that succeed, COMMIT or ROLLBACK, and any rest in one query, on either backend: all of the work committed or none of it, every statement answered, the rest run from there |
| Transactions.TransactionLife | crates/core/src/backend/simple_direct.rs:475-492 | the same over any number of queries, backends mixed freely: nothing is committed before the end |
| BatchTheorems.BatchOfOne | crates/core/src/backend/simple_direct.rs:331-340 | single-statement path and one-element batch agree if and only if no refused commit and no typed error that left work |
| BatchTheorems.RefusedCommitEscapes | crates/core/src/backend/simple_direct.rs:331-340 | a statement whose commit a deferred check refuses: an error reply from the batch loop, an escaping panic from the other |
| BatchTheorems.QuerySound | crates/core/src/backend/spi_bridge.rs:77-131 | outside an open block nothing uncommitted is ever left, on either backend |
| ScramServer.FindNthComma | crates/core/src/wire/auth/scram.rs:336-347 | the index of the n-th comma, None exactly if there are fewer |
| ScramServer.ParseFirst | crates/core/src/wire/auth/scram.rs:206-251 | the two-cut reading of client-first, with its error cases |
| ScramServer.ParseFinal | crates/core/src/wire/auth/scram.rs:253-277 | last occurrence of each of c, r and p, with its error cases |
| ScramServer.ConstantTimeEq | crates/core/src/wire/auth/scram.rs:304-313 | true if and only if the slices are equal |
| ScramServer.XorInto | crates/core/src/wire/auth/scram.rs:150-154 | the recovered client key, byte by byte |
| ScramServer.ScramServer.OnClientFirst | crates/core/src/wire/auth/scram.rs:87-111 | the reply and all four fields it writes, also on errors |
| ScramServer.ScramServer.OnClientFinal | crates/core/src/wire/auth/scram.rs:113-165 | the verdict, as the specification gives it |
| Scram.FinalExact | crates/core/src/wire/auth/scram.rs:113-165 | a final is accepted if and only if nonce and header are echoed and the proof is that of some key hashing to StoredKey; the reply is the server signature; AuthFailed is reserved for a well-formed wrong proof |
| Scram.HonestClientAccepted | crates/core/src/wire/auth/scram.rs:87-165 | any holder of a key that hashes to StoredKey is accepted after any accepted client-first, and gets the server signature |
| Scram.ExchangeSucceeds | crates/core/src/wire/auth/scram.rs:87-165 | the whole exchange, from user name, nonce and key |
| Scram.WrongKeyRefused | crates/core/src/wire/auth/scram.rs:150-165 | without such a key no final of any kind is accepted |
| Scram.AcceptedNonceIsClean | crates/core/src/wire/auth/scram.rs:206-251 | the accepted nonce is comma-free UTF-8 and header and bare part rejoin to the message |
| Scram.ClientFirstRoundTrip | crates/core/src/wire/auth/scram.rs:206-251 | the parser recovers what the client composed |
| Scram.ServerFirstRoundTrip | crates/core/src/wire/auth/scram.rs:87-111 | the client reads the combined nonce back out of the reply |
| Scram.ClientFinalRoundTrip | crates/core/src/wire/auth/scram.rs:253-277 | the parser recovers channel binding, nonce and proof |
| ScramLaws.NonceComposed | crates/core/src/wire/auth/scram.rs:87-111 | after an accepted client-first the combined nonce is the client's nonce and then exactly the text of the server's random bytes, and is what the client reads back |
| ScramLaws.FreshNonce | crates/core/src/wire/auth/scram.rs:95-96 | different random bytes of one length give different nonces, whatever the two clients sent |
| ScramLaws.ReplayRefused | crates/core/src/wire/auth/scram.rs:113-126 | a final that was good on one server object is refused with a nonce mismatch on every one that drew other bytes |
| ScramLaws.LastOccurrence | crates/core/src/wire/auth/scram.rs:224-231 | of several attributes with one name the last counts |
| ScramLaws.ClientFirstExact | crates/core/src/wire/auth/scram.rs:206-251 | exactly which client-first messages are read, and as what |
| ScramLaws.HonestExchange | crates/core/src/wire/auth/scram.rs:87-165 | the honest exchange with every message and the authenticated string written out |
| ScramLaws.XorByteIsBitwise | crates/core/src/wire/auth/scram.rs:150-154 | the exclusive or of two bytes, bit by bit |
| Base64.DecodeExact | crates/core/src/wire/auth/scram.rs:139-149 | decoding succeeds with b exactly on the encoding of b |
| Base64.EncodeIsPlain | crates/core/src/wire/auth/scram.rs:99-110 | encodings are ASCII and free of the separators around them |
| Base64.AlphabetIs | crates/core/src/wire/auth/scram.rs:36 | the alphabet of section 4 of RFC 4648 |
| Base64.QuantumIsBigEndian | crates/core/src/wire/auth/scram.rs:36 | three bytes and their four characters are one 24-bit number, most significant first |
| Base64.PaddingIs | crates/core/src/wire/auth/scram.rs:331 | the unpadded text is the padded one without its padding |
| Base64.NoPadInjective | crates/core/src/wire/auth/scram.rs:331 | different bytes of one length have different unpadded texts |
| RolPassword.ParseVerifierExact | crates/core/src/wire/auth/verifier.rs:167-215 | exactly which strings are read as which verifier |
| RolPassword.VerifierRoundTrip | crates/core/src/wire/auth/verifier.rs:167-215 | the rendered form is recovered if and only if the count is from 4096 to the u32 limit and both keys are 32 bytes, for every salt |
| RolPassword.StoredForm | crates/core/src/wire/auth/verifier.rs:185-215 | the stored form written out, StoredKey in front of ServerKey, with the exact bounds under which it is read back |
| RolPassword.Md5Exact | crates/core/src/wire/auth/verifier.rs:167-183 | exactly which strings are read as MD5 |
| Decimal.ParseU32Numeral | crates/core/src/wire/auth/verifier.rs:185-215 | a numeral parses back if and only if it fits 32 bits |
| Decimal.DigitsArePositional | crates/core/src/backend/executor.rs:635-649 | the character k places from the right is the digit of weight 10^k |
| Sasl.StartupHandler.OnStartup | crates/core/src/wire/pgwire_v3.rs:175-226 | frames, return and next phase of every delivery, with Done left behind wherever nothing is put back |
| Sasl.StartupHandler.HandleStartupMessage | crates/core/src/wire/pgwire_v3.rs:232-319 | failed version negotiation, wrong database, and dispatch on the stored credential |
| Sasl.StartupHandler.HandleFirst | crates/core/src/wire/pgwire_v3.rs:323-368 | client-first: mechanism check, reply, phase |
| Sasl.StartupHandler.HandleFinal | crates/core/src/wire/pgwire_v3.rs:370-393 | client-final: signature and acceptance, or refusal |
| Sasl.AcceptNeedsExchange | crates/core/src/wire/pgwire_v3.rs:189-218 | over any message sequence after a SCRAM startup, acceptance needs a delivery at which the handler awaited client-first, found it good and answered it, and later a good client-final on the very server it left |
| Sasl.OutcomeIsFinal | crates/core/src/wire/pgwire_v3.rs:189-218 | after any outcome nothing is accepted and every password message is refused |
| Sasl.AcceptedOnce | crates/core/src/wire/pgwire_v3.rs:121-139 | at most one acceptance per startup |
| Sasl.PhaseOrigin | crates/core/src/wire/pgwire_v3.rs:121-139 | a server awaiting the final is the one some successful client-first of the run left |
| Sasl.HonestRunAccepted | crates/core/src/wire/pgwire_v3.rs:175-393 | startup, first and final of an honest client end in acceptance |
| Admission.StartupAdmits | crates/core/src/wire/pgwire_v3.rs:232-284 | a startup message admits by itself if and only if the protocol was agreed on, the database is postgres and the catalog holds no password for the user |
| Admission.StartupAnswered | crates/core/src/wire/pgwire_v3.rs:232-319 | what every startup message is told: 3D000, 0A000, 28000, the SASL request with a new server, or acceptance |
| Admission.UnexpectedPassword | crates/core/src/wire/pgwire_v3.rs:204-217 | a password message nobody waits for is answered 08P01 and never accepted |
| Admission.PasswordRefused | crates/core/src/wire/pgwire_v3.rs:323-452 | what a refused client-first or client-final is told: 28P01, or XX000 without randomness, and the exchange is over |
| Admission.AdmissionExact | crates/core/src/wire/pgwire_v3.rs:175-393 | over every sequence of deliveries from an idle handler, startups included and repeated: a client is admitted at a delivery if and only if that is a passwordless startup or the end of one complete exchange on one server |
| Admission.HonestFrames | crates/core/src/wire/pgwire_v3.rs:175-393 | the frames an honest client is sent over its three messages, written out |
| PortalName.WriteDigits | crates/core/src/backend/executor.rs:635-649 | for every u64 the digit loop stays inside its 20 bytes, ends, and leaves the decimal numeral |
| PortalName.PrintName | crates/core/src/backend/executor.rs:626-667 | the NUL-terminated name fits 32 bytes and is prefix plus numeral |
| PortalName.NamesDistinct | crates/core/src/backend/executor.rs:626-667 | distinct ids give distinct names |
| PortalName.PortalNames.CreateAnonymous | crates/core/src/backend/executor.rs:626-667 | the counter advances, wrapping at 2^64 |
| PortalName.CreateMany | crates/core/src/backend/executor.rs:626-667 | the k-th of n calls on a new counter gives the k-th name, for every n |
| PortalName.NamesRepeatOnlyAfterWrap | crates/core/src/backend/executor.rs:626-667 | two of those names are equal exactly when a multiple of 2^64 calls lies between |
| PortalName.FirstNames | crates/core/src/backend/executor.rs:626-667 | the first names are pgxport_0 and pgxport_1 |
| DataRow.EncodeInto | crates/core/src/backend/dest_receiver.rs:170-203 | appends length and payload; text stops at the NUL |
| DataRow.WireReceiveSlot | crates/core/src/backend/dest_receiver.rs:100-123 | the row of the tuple's cells, NULLs included |
| DataRow.EncodeTuple | crates/core/src/backend/spi_bridge.rs:850-860 | the same row for the same cells |
| DataRow.MaterialiseRows | crates/core/src/backend/extended/spi.rs:497-507 | the same rows, one per tuple and in order |
| DataRow.RowRoundTrip | crates/core/src/backend/dest_receiver.rs:100-123 | a client reads back exactly the cells sent if and only if lengths and column count fit their fields |
| DataRow.RowsDetermineCells | crates/core/src/backend/dest_receiver.rs:100-123 | rows that fit are equal only if their cells are |
| DataRow.CellShows | crates/core/src/backend/dest_receiver.rs:170-203 | a text cell is what stands in front of the first NUL, a binary cell every byte |
| DataRow.FieldLayout | crates/core/src/backend/dest_receiver.rs:170-203 | the length is big-endian, and NULL is four bytes 255 |

## Left out

- PostgreSQL itself: parser, planner, executor, catalogs and memory contexts. `Xact` is a trusted table of its block states; that an abort drains the snapshot stack and the SPI stack is taken from it.
- Savepoints, two-phase commit and statements that refuse to run in a block. PREPARE TRANSACTION and ROLLBACK TO count as exit statements in the code; the only exits here are COMMIT and ROLLBACK.
- Parsing a query's text, splitting it, dropping blank statements and classifying the rest: a query arrives as its list of non-empty statements or as the error the parser raised.
- How a panic that escapes the drivers travels. A refused commit behind the single-statement brackets appears as the outcome `Unwound`; the process then ends, and that its exit hook aborts the transaction is taken from PostgreSQL.
- Session state that survives even a rollback, such as session-level advisory locks and sequence caches: all session-local state is transactional here.
- Error texts and command tags of ordinary statements: a statement answers with an arbitrary string.
- Extended query beyond the shared row loop, portals beyond their names, plan caching and tuple stores.
- System calls, control-message layout, readiness retry loops, socket permissions and connecting with retries. A socket is two FIFO channels that may end or refuse a send.
- A slot that reads the end of its channel exits as if it had died; the model has the one event `SlotDie` for both, so that it happens eventually is not modelled.
- Of the async runtime only the notifier's queue, its one permit and the passing on of a dropped notification; cancellation and the 5-second timeout are the one event `GiveUp`, which may come at any time.
- Workers spawned but not yet connected, and the pre-warm loop. `total() <= max` is therefore not claimed, and a run may accept any number of slots.
- ProtocolLifecycle.DrainsInTime: assumes that time does not pass a pending deadline before its timer has run; how late a timer may fire is not modelled.
- TLS, settings registration, host-based access, logging, hooks, signals and version packing.
- Reading `pg_authid`: the credential of a role is a parameter of each delivery.
- The strength of HMAC, SHA-256 and the nonce source, and timing: `ConstantTimeEq` is proved to compute equality, no more.
- Scram.HonestClientAccepted: covers finals without extensions, because the server rebuilds the signed message from `c` and `r` alone.
- Pool.Pool.CleanupOrphaned: the shut channels are a set of ids; what shutting does to a channel is in `Protocol`.
- Sasl.StartupHandler.HandleStartupMessage: does not model what version negotiation itself sends; whether it succeeds is part of the message.
- DataRow.WireReceiveSlot: loops over all encoders, where the code's bound is the column count narrowed to 16 bits and widened again; they differ from 32768 columns on, more than the server allows in a result.
- Sessions do not interleave with the pool protocol inside one model: `Protocol` treats a session as one state of its slot, `SlotProcess` a control sequence as given.
