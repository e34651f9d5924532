# Verification of the A2A task protocol and its client-side formats

This Dafny project models the parts of the repository in which several pieces of code have to
agree, and proves what they guarantee together.

**The task protocol.** Many writers race on one task: cloned event sinks of an executor, the
cancel handler, the blocking send's timeout, compensation for a failed registration or enqueue,
follow-up messages that start a new turn, and redelivered queue jobs. `Protocol` is a step system
over one task: the store (row, event log, cancel marker, lease), any number of sinks, emit calls,
framework writers, sends and streams, each with its own program counter. One step is one storage
call, or one run of in-memory updates between two awaits; a schedule is any sequence of steps, and
a step that is not enabled changes nothing. `Safety`, `Records`, `SinkFlags` and `Streams` prove
what every schedule keeps, `Commits` traces every task that a call hands around to the moment it
was stored, `Publications` says exactly when a sink fires `yielded`, closes and dispatches,
`Locks` who holds its lock, `Exits` when its executor is gone, `Messages` where the message of a
send goes, and `Theorems` states what follows for every schedule and every continuation of it,
with no hypothesis. The two protection mechanisms are kept apart: `commit_lock` excludes other
clones of the same sink, the store's terminal check refuses stale artifact writes after a
terminal.

Some promises of the code do not hold on every schedule. `Runs` is the scheme by which each is
met by its exact condition: the promise holds throughout a schedule if and only if every step of
the schedule meets the condition in the state it is taken in.

- *The row is the replay of the event log* if and only if every artifact commit that the store
  accepts is clean (`Replaying.ReplayExactly`). This splits: the status is the replayed one
  exactly if those commits read the stored status (`StatusExactly`), the artifacts exactly if
  merging into what they read gives what merging into the stored artifacts would
  (`ArtifactsExactly`; then no update is lost, though parts may happen to stay without it), and
  the number of parts adds up exactly if they read as many parts as are stored (`PartsExactly`).
- *The status events are a path of the state machine* if and only if every accepted status write
  is allowed from the replayed status too (`Replaying.PathExactly`).
- *Of the follow-ups to one interruption at most one starts a turn* if and only if every turn that
  the store lets start finds that the client was asked since the last one
  (`Turns.OneTurnPerInterruption`).
  What the last two conditions come down to on the row: a status write that breaks one of them
  stands on a status that a stale artifact commit has put back
  (`Replaying.IllegalWriteStandsOnAStaleStatus`, `Turns.EarlyTurnStandsOnAStaleStatus`).
- *The row's history is the messages of the sends that were recorded* if and only if every accepted
  artifact commit has read the stored history (`Messages.HistoryExactly`).
- *The lease of an executor-held task is that of its turn* if and only if every step is timely
  (`Leases.LeasesExactly`): never another turn's, and, for deployments that write leases, never
  none. To say whose lease it is, the model keeps with each lease the send it was written for; the
  stored expiry does not tell, and no step depends on it.

A schedule in which a turn starts, and an executor is spawned, only once every earlier sink is gone
meets the first three (`SingleFamily.ExclusiveIsClean`, `Turns.LegalTurnsAlternate`). `Overlaps`
and `LeaseSchedules` have reachable schedules that fail each, the latter without two executors at
once.

**The waiting handlers.** `EventSink` is the sink as an object over a shared store object, proved
against a specification that is then shown to be a run of the protocol. `Handlers`,
`BlockingSend`, `SendTurn` and `DurableQueue` are the request handlers as methods on a `Server`
object; at every await any other parties may take any number of steps and any time may pass. Which
of a handler's storage calls fail is a parameter, as is by how much a wake-up may be late, and the
contract says which failure each answer comes from. The contracts keep the server's world
reachable, so every theorem about schedules applies to it.

**The SSE client.** `SseFormat` is the reference: line endings, lines, blocks, and a
line-at-a-time interpreter. `SseClient` holds the decoder and the pull loop as objects and the
block parser as a loop, proved against it; `SseRoundTrip` prints events and reads them back. The
format follows sections 9.2.5 and 9.2.6 of the HTML Living Standard except where the code differs:
ids do not persist from event to event, data that joins to the empty text yields no event, and an
unterminated last event is delivered.

**Smaller cores.** `Template` (the prompt renderer), `Extensions` (header negotiation), and
`Binary64` and `Numbers` (JSON numbers through proto doubles, in trees of any depth).

Where code and documentation differ, the model follows the code:

- `commit_artifact` is documented as free of lost updates (crates/turul-a2a/src/event_sink.rs:3-22).
  It replaces the whole row, so a turn started beside a running executor can roll its status back
  (`Overlaps.OverlappingTurnBreaksReplay`) and lose its parts (`Overlaps.OverlappingTurnLosesParts`).
  The status rolled back lets yet another follow-up to the same interruption start its turn
  (`Overlaps.TwoTurnsForOneInterruption`).
  One instance suffices: a follow-up is checked against the in-flight registry when it is resolved,
  not when it starts its turn, so one resolved while the registry was empty can start after
  another's executor has asked its client and while that executor still runs. Only its spawn
  collides then, and an executor run from a queue is not in the registry at all.
- A follow-up's message is appended before the turn starts and without a check for a terminal
  task, so a follow-up refused at WORKING has left its message in the history; and an artifact
  commit that read the row earlier drops a message appended meanwhile.
- A send whose spawn fails because this instance still holds an executor of the task is not
  compensated: the task stays WORKING without one (crates/turul-a2a/src/router.rs:1297-1304).
- "No reaper ever sees the task executor-held with a lease from an earlier turn"
  (crates/turul-a2a/src/router.rs:964-966) fails when two follow-ups interleave
  (`LeaseSchedules.InterleavedFollowUps`) and when a renewal for the earlier turn lands after the
  follow-up's lease (`LeaseSchedules.LateRenewal`); the clearing of the earlier turn's lease can
  land there too and leave the new turn without one (`LeaseSchedules.LateClear`).
- A blocking send is documented to fail at once when its executor exits without a yield
  (crates/turul-a2a/src/router.rs:1407-1415). The waiting request holds the handle that holds the
  sender of `yielded` (crates/turul-a2a/src/router.rs:1383-1393,
  crates/turul-a2a/src/server/in_flight.rs:75-84), so the sender cannot go while it waits:
  `SendTurn.SendMessage` never gives that answer, and nothing is forced before the hard deadline.
- A cancel marker that cannot be read counts as not set, and the job runs
  (crates/turul-a2a-aws-lambda/src/durable.rs:186-190).
- Normalisation is documented to leave out-of-range numbers alone; at exactly 2^64 it saturates
  (crates/turul-a2a-types/src/message.rs:388-404).
- Streams end after INPUT_REQUIRED, so later events of an executor that is still running are
  committed but not delivered on that stream; events committed between the sequence read and the
  snapshot are in both.
- An SSE line ended by a lone CR and followed by an empty line ended by LF reads as one line.
  Printed events survive any mix of endings in which no two rows but the last two meet so
  (`SseRoundTrip.RoundTrip`).

## Model

| member | source | states |
|---|---|---|
| `Theorems.OneTerminal` | crates/turul-a2a/src/router.rs:1613-1651 | in every schedule of any number of emits, cancels, timeouts, compensations, sends and queue jobs, a terminal event is the last event of the log for ever, the stored task says the same, and neither changes again |
| `Theorems.LogIsAppendOnly` | crates/turul-a2a/src/storage/atomic.rs:37-60 | what a schedule has committed is a prefix of the log of every continuation |
| `Theorems.CallsWriteOnce` | crates/turul-a2a/src/event_sink.rs:309-472 | no emit and no framework writer has two events in the log |
| `Theorems.OkEmitIsLogged` | crates/turul-a2a/src/event_sink.rs:347-390 | an emit that returned Ok has its own event at the sequence it returned, for ever: for a status that status with its message, for an artifact that artifact with its append and last-chunk flags |
| `Theorems.FrameworkAnswersWithTheTerminal` | crates/turul-a2a/src/router.rs:1621-1651 | what a framework writer hands back, having won or having lost and re-read, is the task's one terminal, now and in every continuation, and was the stored row as it is |
| `Theorems.OneTerminalDispatch` | crates/turul-a2a/src/event_sink.rs:354-374 | over all sinks and framework writers at most one push dispatch carries a terminal; it carries the row that its commit stored, which has the status and artifacts of the stored task for ever |
| `Theorems.ClosedSinkMeansTerminal` | crates/turul-a2a/src/event_sink.rs:376-396 | a closed sink stays closed and the task is terminal |
| `Theorems.YieldedIsDurable` | crates/turul-a2a/src/server/in_flight.rs:225-258 | what `yielded` fired with is the whole row that a commit of this very sink stored, is a terminal or client-held status, and never changes |
| `Publications.YieldedExactly` | crates/turul-a2a/src/event_sink.rs:376-390 | in every schedule a sink has fired `yielded` exactly if it has published a status that ends the task or waits for the client, and then with the commit of the first of them |
| `Publications.ClosedExactly` | crates/turul-a2a/src/event_sink.rs:376-396 | in every schedule a sink is closed exactly if it has published COMPLETED, FAILED, CANCELED or REJECTED, or one of its calls has been answered that the sink is closed |
| `Publications.DispatchedExactly` | crates/turul-a2a/src/event_sink.rs:349-374 | in every schedule an entry is handed to the push dispatcher exactly if it is a status that an emit has published or with which a framework writer has won and answered; once, an emit's without its message and the framework's as logged |
| `Locks.LockExactly` | crates/turul-a2a/src/event_sink.rs:309-320 | in every schedule a call holds its sink's `commit_lock` exactly while it is between taking it and its end: so one call at a time, and the lock is free once each has returned, failed or been dropped |
| `Exits.GoesExactly` | crates/turul-a2a/src/server/in_flight.rs:225-258 | in every schedule a sink's executor can go exactly when all its calls have ended, and none ends later; the sender of `yielded` can go exactly when the executor is gone and it has not fired, and then it never fires |
| `Commits.HeldWasStored` | crates/turul-a2a/src/storage/atomic.rs:37-60 | in every schedule, a task held by an emit, a framework writer, `yielded`, a dispatch or a stream was the stored row at some moment, and one that came out of a commit is the row stored with that commit's own entry |
| `SinkFlags.InterruptedFlagTracksTheLog` | crates/turul-a2a/src/event_sink.rs:349-390 | in every schedule `is_interrupted` is true exactly if the last status this sink published, whether or not that call got to return Ok, is INPUT_REQUIRED or AUTH_REQUIRED |
| `SinkFlags.StepKeepsFlags` | crates/turul-a2a/src/event_sink.rs:309-390 | the same as an invariant of every step, a call dropped while it wakes subscribers included, with nothing of the sink's own committed between a commit and its publication |
| `Theorems.RefusedSendWritesNothing` | crates/turul-a2a/src/router.rs:836-920 | a refused send has no event and no executor, and no later step of it changes anything |
| `Refusals.RefusedLeavesNoTrace` | crates/turul-a2a/src/router.rs:836-920 | deleting a refused send's steps from a schedule leads to the same world but for the list of sends: same row, history, log, lease, marker, executors and streams |
| `Messages.MessageReachesTheTask` | crates/turul-a2a/src/router.rs:928-961 | in every schedule a send keeps the message it was made with, and once it is past its record that message was stored: as the only message of a task created with SUBMITTED, or after those of the task that it continues, and with no other change |
| `Messages.MessageRecordedOnce` | crates/turul-a2a/src/router.rs:944-961 | and by one step only |
| `Messages.HistoryExactly` | crates/turul-a2a/src/storage/in_memory.rs:488-509 | for every schedule: after every prefix the row's history is the messages of the sends recorded so far, in that order and nothing else, if and only if each accepted artifact commit read the stored history |
| `Theorems.CompensatedSendHasNoExecutor` | crates/turul-a2a/src/router.rs:1034-1085 | a send whose registration or enqueue failed never gets an executor in any continuation, and once its compensating write has answered the task is terminal |
| `Safety.StepKeepsInv` | crates/turul-a2a/src/event_sink.rs:3-49 | every step of every party keeps the inductive invariant (log and row agree on the terminal, lock holder, flags backed by log entries, dispatches unique) and only lets the store grow |
| `Records.StepKeepsRecords` | crates/turul-a2a/src/streaming/task_stream.rs:57-120 | every step keeps who wrote which entry, whose turn a sink executes, and that each stream has delivered a gap-free stretch of the log |
| `Replaying.ReplayExactly` | crates/turul-a2a/src/event_sink.rs:402-457 | for every schedule, with no hypothesis: the stored status and artifacts are the fold of the event log after every prefix if and only if each artifact commit the store accepts read the stored status and merges into what it read as it would into the stored artifacts |
| `Replaying.StatusExactly` | crates/turul-a2a/src/event_sink.rs:419-457 | for every schedule: the stored status is the replayed one after every prefix if and only if each accepted artifact commit read the stored status |
| `Replaying.ArtifactsExactly` | crates/turul-a2a/src/event_sink.rs:419-457 | for every schedule: the stored artifacts are the replayed ones after every prefix if and only if each accepted artifact commit merges into what it read as it would into the stored artifacts |
| `Replaying.PartsExactly` | crates/turul-a2a/src/event_sink.rs:419-457 | for every schedule: the task holds exactly as many parts as its artifact events carried, after every prefix, if and only if each accepted artifact commit read as many parts as are stored |
| `Replaying.PathExactly` | crates/turul-a2a-types/src/state_machine.rs:22-69 | for every schedule: the status events form a path of the state machine from SUBMITTED if and only if each accepted status write is allowed from the replayed status |
| `Replaying.StatusKeepsLegal` | crates/turul-a2a-types/src/state_machine.rs:22-69 | they do whenever each accepted artifact commit read the stored status |
| `Replaying.IllegalWriteStandsOnAStaleStatus` | crates/turul-a2a/src/event_sink.rs:419-457 | in every schedule, a status write that the store accepts and the replayed status does not allow stands on a status that an artifact commit with a stale read put back, with no status written in between |
| `Replaying.StepReplays` | crates/turul-a2a/src/event_sink.rs:402-457 | for one step of any party: it keeps the row the replay of the log exactly if it is no accepted artifact commit or a clean one |
| `SingleFamily.StepKeepsFamilyInv` | crates/turul-a2a/src/event_sink.rs:402-457 | under the single-family hypothesis every step keeps: at most one live family, and every read about to be written back is current or will be refused |
| `SingleFamily.ExclusiveIsClean` | crates/turul-a2a/src/event_sink.rs:402-457 | in every schedule in which turns start and executors are spawned only once every earlier sink is gone, each accepted artifact commit is clean, so the row stays the replay of the log |
| `SingleFamily.LockExcludes` | crates/turul-a2a/src/event_sink.rs:410-413 | no two emits of the live family are inside `commit_lock` |
| `FamilyTheorems.StoredTaskIsTheReplay` | crates/turul-a2a/src/event_sink.rs:419-457 | in every state reachable with one family at a time the stored status and artifacts are the fold of the event log, and the status events are a path of the state machine from SUBMITTED that ends in the stored status |
| `FamilyTheorems.NoLostUpdate` | crates/turul-a2a/src/event_sink.rs:402-472 | while accepted artifact commits merge alike (exact for the artifacts, sufficient here), an artifact emit that returned Ok has its parts in the task for ever, contiguous and in one place, whatever runs beside and after it |
| `FamilyTheorems.EmitsKeepTheirOrder` | crates/turul-a2a/src/event_sink.rs:402-472 | in every schedule two such emits never share a place, and within one artifact their parts stand in commit order |
| `Turns.OneTurnPerInterruption` | crates/turul-a2a/src/router.rs:874-914 | for every schedule: between any two turn starts the client was handed the task, so that of any concurrent follow-ups to one interruption at most one starts a turn, if and only if each turn that the store lets start finds that it was asked since the last |
| `Turns.EarlyTurnStandsOnAStaleStatus` | crates/turul-a2a/src/router.rs:874-914 | in every schedule, a turn that starts although the client was not asked since the last one stands on a status that an artifact commit with a stale read put back, with no status written in between |
| `Turns.LegalTurnsAlternate` | crates/turul-a2a/src/router.rs:874-914 | it is so whenever the log is legal, and whenever each accepted artifact commit read the stored status |
| `Streams.StreamMissesNothing` | crates/turul-a2a/src/router.rs:576-608 | if the row was the replay of its log when the snapshot was taken and is so now, a stream's snapshot is the replay of the first `seen` events with `sequence <= seen`, it delivers exactly the events after `sequence` in order, and a client that applies those after `seen` to the snapshot has the replay of all that is delivered: the current task, once caught up |
| `Streams.SnapshotWasTaken` | crates/turul-a2a/src/router.rs:576-608 | in every schedule the snapshot of an open stream was the stored row at a moment when the log had `seen` entries |
| `Streams.OpensOnTheRow` | crates/turul-a2a/src/router.rs:576-608 | a stream reads the sequence of the log first and then the row; it opens on that row exactly if there is a task, and is open unless the row ends it |
| `Streams.PollCatchesUp` | crates/turul-a2a/src/streaming/task_stream.rs:77-112 | a poll leaves an open stream with nothing pending, or ends it on COMPLETED, FAILED, CANCELED, REJECTED or INPUT_REQUIRED |
| `Streams.OpenExactly` | crates/turul-a2a/src/streaming/task_stream.rs:57-112 | in every schedule a stream is open exactly if neither its snapshot nor an event it has delivered is one of these, and it delivers nothing after one |
| `Streams.SendStreamSeesItsExecutor` | crates/turul-a2a/src/router.rs:504-545 | in every schedule, every event of an executor spawned after the stream read its sequence lies on that stream: it is delivered in its place, or the stream is open and it is still to come, or the stream was closed before it by a closing event or its snapshot |
| `Streams.ExecutorEventsReachTheSender` | crates/turul-a2a/src/router.rs:504-545 | if each accepted artifact commit read the stored status, a stream opened between the start of a turn and the spawn of its executor delivers every event that executor commits, now or by a later poll, unless it has shown the client a closing status before it and since the turn started |
| `Records.DeliverIsAPrefix` | crates/turul-a2a/src/streaming/task_stream.rs:93-99 | one poll sends a prefix of the pending events and stops short only right after the first closing one |
| `Overlaps.StaleWriteLosesParts` | crates/turul-a2a/src/event_sink.rs:419-457 | an artifact commit whose read is k entries old stores the replay of the log without the entries since: events before it keep their places, its own parts are in theirs, and exactly the parts emitted since are missing |
| `Overlaps.StaleWriteRestoresStatus` | crates/turul-a2a/src/event_sink.rs:419-457 | it puts the status it read back; row and log then agree on the status exactly if that is still the replayed one |
| `Overlaps.StaleWriteRestoresHistory` | crates/turul-a2a/src/storage/in_memory.rs:488-509 | it puts the history it read back; a message appended since is kept only if there was none |
| `Overlaps.OverlappingTurnBreaksReplay` | crates/turul-a2a/src/router.rs:903-914 | a schedule reachable on one instance, in which a follow-up resolved earlier starts its turn beside a running executor: the row says INPUT_REQUIRED while the log says WORKING |
| `Overlaps.OverlappingTurnLosesParts` | crates/turul-a2a/src/event_sink.rs:419-457 | a schedule reachable on one instance and its queue in which an artifact emit has returned Ok and its artifact is not in the task |
| `Overlaps.TwoTurnsForOneInterruption` | crates/turul-a2a/src/router.rs:874-914 | a schedule reachable on one instance in which two follow-ups to the same interruption both start their turn, with nothing but an artifact between; the status events are no path |
| `Leases.StepKeepsLease` | crates/turul-a2a/src/router.rs:964-994 | for every step of any party: from a state whose lease is that of the running turn, it leaves one exactly if it is timely (a start finds its own lease; a lease is written, renewed or cleared while the client holds the task or by the turn that runs; an emit that takes the task back finds the turn's lease) |
| `Leases.LeasesExactly` | crates/turul-a2a/src/router.rs:964-994 | for every schedule: after every prefix an executor-held task has the lease of its own turn if and only if every step is timely; both for never another turn's and for never none |
| `LeaseSchedules.InterleavedFollowUps` | crates/turul-a2a/src/router.rs:964-994 | a reachable schedule, with no two executors at once, in which send 2's turn runs on send 1's lease: both follow-ups write their lease before either starts |
| `LeaseSchedules.LateRenewal` | crates/turul-a2a/src/server/liveness.rs:81-117 | another, in which a renewal for the earlier turn's executor lands between the follow-up's lease and its start |
| `LeaseSchedules.LateClear` | crates/turul-a2a/src/server/spawn.rs:250-268 | another, in which the clearing of the earlier turn's lease lands there and the new turn runs on no lease |
| `AtomicStore.StatusWriteKeeps` | crates/turul-a2a/src/storage/in_memory.rs:1166-1330 | an accepted status write appends exactly its event, changes the row's status and nothing else of the store, and keeps the log consistent; it is refused for a terminal exactly if the stored task is terminal |
| `AtomicStore.StatusAcceptedExactly` | crates/turul-a2a-types/src/state_machine.rs:22-69 | the states from which each status is accepted, written out: COMPLETED exactly from WORKING and INPUT_REQUIRED, INPUT_REQUIRED and AUTH_REQUIRED exactly from WORKING, WORKING exactly from SUBMITTED and the client-held ones, FAILED, CANCELED and REJECTED from every open one, SUBMITTED never; and what each refusal answers |
| `AtomicStore.ReplaceKeeps` | crates/turul-a2a/src/storage/in_memory.rs:1332-1425 | an accepted replacement appends exactly its event, stores that task and changes nothing else; it is refused for a terminal exactly if the stored task is terminal |
| `AtomicStore.FrameworkTerminalFailsOnlyByRace` | crates/turul-a2a-types/src/state_machine.rs:22-69 | FAILED, CANCELED and REJECTED are accepted exactly from every stored non-terminal task; the only errors are an earlier terminal and a missing task |
| `Lifecycle.StatesByTheirMoves` | crates/turul-a2a-types/src/state_machine.rs:71-95 | terminal, client-held and executor-held states are told apart by their moves: nothing leaves the first, the second lead to WORKING and are led to from it, the third are the rest |
| `TaskLog.MutableTask.Merge` | crates/turul-a2a-types/src/task.rs:237-251 | the in-place merge extends the first artifact with this id if `append` is set and there is one, and adds the artifact otherwise |
| `TaskLog.PartsAreKept` | crates/turul-a2a-types/src/task.rs:237-251 | an artifact event's parts stay in the place they were first put, under any later events |
| `TaskLog.SlotsAreOrdered` | crates/turul-a2a-types/src/task.rs:237-251 | places of different events never overlap and follow log order within an artifact |
| `TaskLog.PartsAreConserved` | crates/turul-a2a-types/src/task.rs:237-251 | replaying a log neither drops nor invents parts |
| `TaskLog.LegalIsAPath` | crates/turul-a2a-types/src/state_machine.rs:22-69 | a log that opens with the creation is legal exactly if its status events are a path of the transition relation from SUBMITTED; the path ends in the replayed status |
| `TaskLog.WorkingNeedsAnInterrupt` | crates/turul-a2a-types/src/state_machine.rs:22-69 | two WORKING events of a legal log have a client-held status between them |
| `EventSink.EventSinkInner.CommitStatus` | crates/turul-a2a/src/event_sink.rs:309-400 | the imperative critical section of a status commit, a failing write included: new store, flags, `yielded`, dispatches and answer are those of its specification |
| `EventSink.EventSinkInner.CommitArtifact` | crates/turul-a2a/src/event_sink.rs:402-472 | the imperative read-merge-write of an artifact commit, whatever the other parties have made of the store between its read and its write, and with a failing read or write, meets its specification |
| `EventSink.StatusSectionIsARun` | crates/turul-a2a/src/event_sink.rs:309-400 | that specification is what the protocol's steps lock, commit or fail, publish and return do |
| `EventSink.StatusEmitExactly` | crates/turul-a2a/src/event_sink.rs:309-400 | what a status emit on a free sink does, written out: it lands exactly if the sink is open, the write does not fail and its state can be reached from the stored one (row, log, answer, dispatch, closing, interruption and `yielded` each stated); otherwise nothing is written, and the sink is closed exactly if the task is over |
| `EventSink.ArtifactSectionIsARun` | crates/turul-a2a/src/event_sink.rs:402-472 | that specification is what lock, read, any steps of any other parties, commit or fail, publish and return do |
| `EventSink.ArtifactEmitExactly` | crates/turul-a2a/src/event_sink.rs:402-472 | what an artifact emit on an open sink does, whatever the others do between its read and its write: unless the write fails or the task is over by then, the row becomes the task as it was read with the artifact merged in, the log grows by it, and neither the sink nor the dispatches change |
| `EventSink.EarlyEndIsARun` | crates/turul-a2a/src/event_sink.rs:409-432 | a section that ends early, on a closed sink, with a failing read or without a task, is what lock, and fail or read, do |
| `EventSink.ArtifactEndsEarly` | crates/turul-a2a/src/event_sink.rs:409-432 | and then nothing is written, and the answer is a closed sink, the storage error or the missing task |
| `Handlers.Server.CommitFrameworkTerminal` | crates/turul-a2a/src/router.rs:1621-1651 | Ok exactly if this writer's compare-and-set won: its status is then the last log entry and the returned task the one terminal; otherwise it lost to a terminal, or nothing of it is in the log and the task was missing or the store failed |
| `Handlers.Server.CancelGraceThenCommit` | crates/turul-a2a/src/router.rs:1752-1849 | with a positive poll interval the wait ends having slept at most the grace, and at most that interval after each read, whatever reads fail; Ok is the one terminal, CANCELED by this handler exactly if it won; nothing is forced before the grace is over, nor on a task that the first poll sees terminal; it fails in storage exactly if its commit fails, or loses the race and then cannot be re-read, and otherwise only because the task was missing |
| `Handlers.Server.CoreCancelTask` | crates/turul-a2a/src/router.rs:1677-1750 | never Ok on a task that was terminal; refused as not cancelable only on a task that was terminal at the first read or at the marker, with no step of its own; once its cancel marker is set the answer is the task's one terminal, whoever committed it, unless its own forced write fails; failed in storage only by the first read, the marker on an open task, or the forced write, and exactly if that call is made and fails |
| `Handlers.RunByOthers` | crates/turul-a2a/src/router.rs:1752-1849 | however the others interleave, a handler's own writer, send and sink are as it left them |
| `BlockingSend.AwaitYielded` | crates/turul-a2a/src/router.rs:1383-1508 | on every schedule of yield, external cancel and deadlines an Ok answer is a row as it was stored: over `yielded` the one that this sink's own commit stored, and otherwise the one terminal; what the sink had yielded before the wait is its answer, at once; a terminal is forced only on a sink that had not yielded when the wait last looked, which unless the token trips is at most one step earlier, not before the hard deadline and no later than its two wake-ups are late; the answer is then the timeout's FAILED exactly if that commit won, and fails exactly if the commit fails, or loses the race and then cannot be re-read; nothing is forced on a task that was terminal from the outset if the token is tripped in time for a poll; while the request keeps the sender of `yielded`, it never answers that the executor has exited |
| `BlockingSend.Select` | crates/turul-a2a/src/router.rs:1400-1424 | a receiver that is ready before the deadline and the timer loses at most to the token; that the sender is gone is answered at once, and only of a quiet sink; a deadline or a timer only when its time has come, with the receiver not ready at the last step before |
| `BlockingSend.PollUntilTerminal` | crates/turul-a2a/src/router.rs:1425-1455 | the poll after an external cancel ends with this sink's own yield, the one terminal, or at the hard deadline; otherwise only because the sender of `yielded` was gone before it began; what had been yielded is answered at once, a task terminal from the outset is found by the first read that there is time for and that does not fail, and the deadline passes only over a sink that was quiet when last looked at |
| `BlockingSend.ForceTimeout` | crates/turul-a2a/src/router.rs:1480-1508 | the hard deadline's commit or re-read returns the one persisted terminal, as it was stored, unless the commit fails, or loses the race and the re-read fails |
| `SendTurn.Resolve` | crates/turul-a2a/src/router.rs:836-920 | a follow-up is accepted only on a client-held task unknown to this instance's in-flight registry; a refusal names the condition that holds, and the world is the one that would be without the request; the send holds the client's message |
| `SendTurn.StartTaskTurn` | crates/turul-a2a/src/router.rs:928-996 | Ok means this send's WORKING is the last log entry, its message is in the row that its record step wrote, its lease was written in between to run out one ttl from then, and none of its calls failed; an error is that of the first call that fails or that the store declines, for a stated reason, and leaves the send failed with no executor |
| `SendTurn.FailUnstarted` | crates/turul-a2a/src/router.rs:1060-1090 | no executor comes from this send, and the task is terminal, or the compensating write, a FAILED for the given reason, gave up: with a store failure exactly if that call fails, and else only because the task was missing |
| `SendTurn.SendMessage` | crates/turul-a2a/src/router.rs:1124-1365 | each outcome of a send, and the failing or declined call that it comes from: refused without a trace, not started, compensated without an executor, not spawned, in progress with the stored task and handed over to the queue or to an executor as asked, or a sound blocking answer: over `yielded` a row that this sink committed after this very turn started, otherwise the one terminal, forced on a quiet sink only, and none exactly if the forced write fails; once the turn has started the client's message is in the row that its record step wrote |
| `DurableQueue.FailsExactly` | crates/turul-a2a-aws-lambda/src/durable.rs:118-256 | a record fails, under its own id or the placeholder for a missing one, if and only if its body is bad, its task is missing or unreadable, or the task is open and its CANCELED fails otherwise than to a terminal or its message does not convert |
| `DurableQueue.DriveRecord` | crates/turul-a2a-aws-lambda/src/durable.rs:118-256 | for any record, and whichever of its storage calls fail: every answer is the store's and is a failure exactly if the call is made and fails, and the outcome is the specified one for these answers; the executor is invoked exactly if the outcome says so, never on a task that was terminal, and on a marked one only if reading the marker fails |
| `DurableQueue.DriveBatch` | crates/turul-a2a-aws-lambda/src/durable.rs:104-116 | each record is driven in its own stretch of the schedule and once each in order, and the failure list is exactly the ids of the records that fail on the store's answers |
| `DurableQueue.TerminalEndsTheBatch` | crates/turul-a2a-aws-lambda/src/durable.rs:104-256 | once a record of a batch has seen the task terminal no later one invokes its executor or writes CANCELED, and no record of a batch that starts on a terminal task does |
| `SseFormat.NormalizeConcat` | crates/turul-a2a-client/src/sse.rs:98-111 | normalising in two chunks is normalising at once, except that an LF after a chunk ending in CR is dropped: a CRLF cut in two counts once |
| `SseFormat.NormalizedLines` | crates/turul-a2a-client/src/sse.rs:84-111 | splitting the normalised input at LF gives the lines that section 9.2.6 of the HTML Living Standard ends by CRLF, LF or CR |
| `SseFormat.BlocksConcat` | crates/turul-a2a-client/src/sse.rs:113-117 | the blocks of a whole are the blocks of its first part and those of its rest with what follows, wherever it is cut |
| `SseFormat.SplitterRefinesInterpreter` | crates/turul-a2a-client/src/sse.rs:113-180 | for every input, cutting at double LFs and parsing each block gives the events of a line-at-a-time interpreter that dispatches at blank lines and at the end |
| `SseFormat.LinesRead` | crates/turul-a2a-client/src/sse.rs:148-170 | how that interpreter reads each line: a leading colon is a comment; a bare name has an empty value; of the spaces after the colon one at the front does not count; `data` lines join with LF, the last `id` counts, and other names do not |
| `SseClient.SseDecoder.Push` | crates/turul-a2a-client/src/sse.rs:98-111 | however pushes and takes interleave, blocks handed out and blocks still to come are those of the whole input pushed at once |
| `SseClient.SseDecoder.NextBlock` | crates/turul-a2a-client/src/sse.rs:113-117 | hands out the first complete block and keeps the rest, or reports that there is none |
| `SseClient.SseDecoder.Finish` | crates/turul-a2a-client/src/sse.rs:119-126 | on a drained buffer the unterminated last block follows; with complete blocks buffered and nothing after them, exactly one empty block comes out besides |
| `SseClient.ParseSseEvent` | crates/turul-a2a-client/src/sse.rs:148-180 | the loop over a block's lines yields the event of the pending fields, or none without data |
| `SseClient.EventStream.Next` | crates/turul-a2a-client/src/sse.rs:48-83 | the pull loop ends on every call; it ends for good only when every event of the reference has been delivered, and reports a transport error only after all events complete before it |
| `SseClient.PullAll` | crates/turul-a2a-client/src/sse.rs:48-83 | pulled to its end, a stream delivers exactly the reference events of its bytes however they were cut into chunks, and each transport error once and in order |
| `SseRoundTrip.MixedEndings` | crates/turul-a2a-client/src/sse.rs:98-117 | lines with mixed endings are read as written exactly if no line ending in a lone CR is followed at once by an empty line ended by LF |
| `SseRoundTrip.RawLinesOfRows` | crates/turul-a2a-client/src/sse.rs:98-117 | in general, of two such rows the second vanishes and all others are read as written |
| `SseRoundTrip.RoundTrip` | crates/turul-a2a-client/src/sse.rs:98-180 | printed with any endings, cut into any chunks, with any transport errors between them, events come back as they were if and only if no two rows but the last two collide |
| `SseRoundTrip.CollisionLosesAnEvent` | crates/turul-a2a-client/src/sse.rs:98-180 | a collision before the last row leaves fewer events than blank lines: two of them run together |
| `SseRoundTrip.UniformRoundTrip` | crates/turul-a2a-client/src/sse.rs:98-180 | with one line-ending style throughout, every printable list of events comes back |
| `SseRoundTrip.DataMakesTheEvent` | crates/turul-a2a-client/src/sse.rs:148-180 | fields printed with data that is not empty read as that event; with empty data, or none, there is no event |
| `Template.RenderTemplate` | crates/turul-a2a-patterns/src/template.rs:14-52 | the index loop, always at a character boundary, meets the byte-wise specification, errors and their offsets included |
| `Template.ResolvePath` | crates/turul-a2a-patterns/src/template.rs:54-63 | the loop finds what stepping through the dotted segments finds |
| `Template.DottedPathFindsNested` | crates/turul-a2a-patterns/src/template.rs:54-63 | a dotted path finds exactly what was nested under its segments, and nothing if a segment is empty |
| `Template.EscapeRoundTrip` | crates/turul-a2a-patterns/src/template.rs:17-26 | for every text: with each leftmost `{{` written as `\{{` it renders to itself |
| `Template.PrintedTemplateRenders` | crates/turul-a2a-patterns/src/template.rs:14-52 | a printed list of literals and variables renders to the concatenation of texts and values, or to the first missing variable with its offset |
| `Template.RendersIfAllFound` | crates/turul-a2a-patterns/src/template.rs:14-63 | such a template fails exactly if some variable is missing |
| `Template.SyntaxErrors` | crates/turul-a2a-patterns/src/template.rs:27-40 | after any literal, an opening that is never closed is an error at its offset, and so is one that closes on nothing but white space |
| `Template.BraceJoinsTheName` | crates/turul-a2a-patterns/src/template.rs:27-37 | a literal ending in a lone brace before a variable makes the brace part of the name |
| `Template.BackslashEscapesTheVariable` | crates/turul-a2a-patterns/src/template.rs:21-26 | a literal ending in a backslash makes the following variable plain text |
| `Extensions.ParseA2aExtensions` | crates/turul-a2a/src/profile_dispatch.rs:117-130 | the loop collects the trimmed, non-empty, comma-separated segments as a set |
| `Extensions.ValidateActivation` | crates/turul-a2a/src/profile_dispatch.rs:144-168 | Ok exactly if everything required was activated, and then the intersection; an error names the first required extension that was not |
| `Extensions.ResponseHeaderValue` | crates/turul-a2a/src/profile_dispatch.rs:177-184 | none for the empty set, otherwise the sorted URIs joined by comma and space |
| `Extensions.OnlyOneListing` | crates/turul-a2a/src/profile_dispatch.rs:177-184 | a set has one sorted listing: the echo does not depend on the order the set is walked in |
| `Extensions.LessIsLexicographic` | crates/turul-a2a/src/profile_dispatch.rs:177-184 | its order is by the first byte that differs, a prefix before what it is a prefix of |
| `Extensions.EchoParsesBack` | crates/turul-a2a/src/profile_dispatch.rs:117-184 | parsing an echoed list gives the very set back |
| `Extensions.Negotiate` | crates/turul-a2a/src/profile_dispatch.rs:117-184 | required is within the result, the result is activated and advertised, the echo parses to it, and sending the echo negotiates the same result again |
| `Extensions.SomeHeaderNegotiates` | crates/turul-a2a/src/profile_dispatch.rs:144-158 | some header meets an agent's requirements exactly if every required URI is non-empty, trimmed and free of commas |
| `Binary64.RoundIsNearest` | crates/turul-a2a-types/src/pbjson.rs:47-48 | the conversion of an integer to a double is to a nearest representable number |
| `Binary64.RoundIsRepresentable` | crates/turul-a2a-types/src/pbjson.rs:47-48 | its result is a double |
| `Binary64.TiesToEven` | crates/turul-a2a-types/src/pbjson.rs:47-48 | half way between two doubles it takes the one with the even mantissa |
| `Binary64.RoundingError` | crates/turul-a2a-types/src/pbjson.rs:12-18 | it moves a number by at most half the distance between neighbouring doubles |
| `Binary64.RoundKeepsRepresentable` | crates/turul-a2a-types/src/pbjson.rs:12-18 | exactly the representable integers are kept |
| `Numbers.NumberSurvives` | crates/turul-a2a-types/src/message.rs:395-410 | a number comes back from its double as it was exactly if it is an integer a double holds, u64::MAX, or a float that is fractional or out of range |
| `Numbers.NormalizedValue` | crates/turul-a2a-types/src/message.rs:388-410 | normalisation changes the value of one double only, 2^64; whole ones from -2^63 up to it become integers, all others stay |
| `Numbers.IntegersBecomeTheNearest` | crates/turul-a2a-types/src/pbjson.rs:43-48 | an integer of either sign becomes a double than which none is closer, on a tie the one with the even mantissa |
| `Numbers.TreeSurvives` | crates/turul-a2a-types/src/message.rs:395-459 | at any depth, a tree survives the way to a proto value and back exactly if each of its numbers does |
| `Numbers.SafeIntegersSurvive` | crates/turul-a2a-types/src/message.rs:395-459 | every integer of magnitude at most 2^53 survives, at any nesting depth |
| `Numbers.ProtoRoundTrip` | crates/turul-a2a-types/src/pbjson.rs:43-88 | the two conversions are inverse on proto values exactly if no value lacks a kind |
| `Numbers.JsonToValue` | crates/turul-a2a-types/src/pbjson.rs:43-61 | the recursive conversion, its object arm filling a map in any key order, computes the specified proto value |
| `Numbers.ValueToJson` | crates/turul-a2a-types/src/pbjson.rs:67-88 | the same for the way back |

## Left out

- Owners, tenants, context ids and authentication: one task and one owner; a foreign task reads as missing.
- Storage backends: the store is the contract of storage/atomic.rs as the in-memory backend meets it. A storage call either takes effect and answers, or fails without effect; a commit whose answer is lost is not modelled.
- `set_cancel_requested` on a terminal task and a lost compare-and-set are one error in the model; both are reported as not cancelable.
- Status timestamps, TTL cleanup, list queries and history trimming: a re-read with a history length returns the stored task at that moment, so a blocking send that asks for one may answer with a later state.
- Messages in replay: a continuation's message is appended without an event, so replay is claimed for status and artifacts only.
- An enqueue that reports an error after the queue accepted the job: the job is then delivered although its send was compensated; the record is skipped if the compensation succeeded.
- Delivery of push notifications: only calls of the dispatcher are modelled, not the requests it makes, its retries or its claims.
- The in-flight registry: a follow-up's check against it is an input, because each instance has its own. The stall watchdog, the lease reaper and the cross-instance cancel poller act through steps that any party may take.
- Subscribing to a terminal task is an error in the source; in the model such a stream opens closed and delivers nothing.
- Aborting an executor: an emit may be dropped between any two of its steps; that an abort arrives is not claimed.
- Real time and liveness: the clock is an integer that never goes back; nothing is claimed beyond the termination of the loops and the bounds stated.
- Jobs for other tasks in a batch: only whether they fail.
- JSON parsing of event data, and lossy UTF-8 decoding of a complete block: values are the bytes, which decoding maps one block at a time; an event whose data is no JSON is one item of the stream either way.
- Typed stream events (`parse_stream_event`): a finite dispatch on one key.
- serde_json's text for values other than strings is a parameter of the template renderer; UTF-8 is modelled by the structure of lead and continuation bytes.
- Floats are reals: not-a-number, infinities, the sign of zero and the largest finite double do not occur; JSON parsers and serde_json hold finite numbers only.
- Request validation ahead of target resolution (payload size, media types, push URL): refusals before any storage call.
- HTTP, gRPC and Lambda plumbing, agent cards, error tables, skill registry, schema validation and the v0.3 compatibility rewriting.
