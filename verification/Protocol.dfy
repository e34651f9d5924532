// The task protocol as a step system: every storage call, and every synchronous run of
// in-memory updates between two awaits, is one step; a schedule is any sequence of steps
// of any number of emits, sends, framework terminals, executors and stream readers.
// A step that is not enabled leaves the world as it is.
module Protocol {
  import opened Wrappers
  import opened Lifecycle
  import opened TaskLog
  import opened AtomicStore

  // ---- The parties ----

  // One EventSinkInner, shared by all clones of the sink. `live` until its executor and
  // every clone are gone. `origin` is the send whose turn it executes. `dropped` once the
  // sender of `yielded` is gone without having fired.
  datatype Sink = Sink(
    origin: Id,
    live: bool,
    isClosed: bool,
    isInterrupted: bool,
    lock: Option<Id>,
    yielded: Option<Commit>,
    dropped: bool)

  datatype EmitOp =
    | EmitStatus(status: Status)
    | EmitArtifact(artifact: Artifact, append: bool, lastChunk: bool)

  datatype EmitResult =
    | Emitted(at: nat)
    | SinkClosed
    | StoreRefused(error: StoreError)
    | Dropped
    | Unanswered(at: nat)

  // One call of emit_artifact, set_status, complete, fail, ... on some clone. Published: the
  // flags are set and the call is waking subscribers, still under its lock; a call dropped
  // there ends Unanswered.
  datatype EmitPc =
    | Waiting
    | Holding
    | HasRead(task: Task)
    | Committed(commit: Commit)
    | Published(at: nat)
    | Finished(result: EmitResult)

  datatype Emit = Emit(sink: Id, op: EmitOp, pc: EmitPc)

  // One call of commit_framework_terminal, followed by the re-read that its callers do
  // when they lose the race.
  datatype WriterPc =
    | Ready
    | Won(commit: Commit)
    | Lost
    | Answered(task: Task)
    | GaveUp(error: StoreError)

  datatype Writer = Writer(status: Status, pc: WriterPc)

  datatype Refusal = NotFound | IsTerminalTask | NotClientHeld | InFlight

  // One SendMessage or SendStreamingMessage.
  datatype SendPc =
    | Resolved
    | Recorded
    | Leased
    | Started
    | Spawned(sink: Id)
    | Enqueued
    | Compensated(writer: Id)
    | Refused(why: Refusal)
    | Failed(error: StoreError)

  datatype Send = Send(message: string, followUp: bool, pc: SendPc)

  // One task stream: the sequence read first, then the snapshot, then polls.
  // `seen` is the length of the log when the snapshot was read.
  datatype Reader =
    | HasSequence(sequence: nat)
    | Streaming(sequence: nat, snapshot: Task, seen: nat, last: nat, delivered: seq<Event>, open: bool)
    | NotOpened

  datatype Dispatch = Dispatch(at: nat, event: Event, task: Task, author: Author)

  datatype World = World(
    store: Store,
    sinks: map<Id, Sink>,
    emits: map<Id, Emit>,
    writers: map<Id, Writer>,
    sends: map<Id, Send>,
    readers: map<Id, Reader>,
    dispatches: seq<Dispatch>)

  datatype Label =
    | SendResolve(s: Id, message: string, followUp: bool, inFlightHere: bool)
    | SendRecord(s: Id)
    | SendLease(s: Id, expires: Option<int>)
    | SendStart(s: Id)
    | SendSpawn(s: Id, f: Id)
    | SendEnqueue(s: Id)
    | SendCompensate(s: Id, h: Id, reason: string)
    | SendFail(s: Id)
    | JobSpawn(s: Id, f: Id)
    | SinkExit(f: Id)
    | SenderDrop(f: Id)
    | EmitCall(e: Id, f: Id, op: EmitOp)
    | EmitLock(e: Id)
    | EmitRead(e: Id)
    | EmitCommit(e: Id)
    | EmitPublish(e: Id)
    | EmitReturn(e: Id)
    | EmitFail(e: Id)
    | EmitDrop(e: Id)
    | WriterStart(h: Id, status: Status)
    | WriterCommit(h: Id)
    | WriterDispatch(h: Id)
    | WriterReread(h: Id)
    | WriterFail(h: Id)
    | MarkCancel(h: Id)
    | LeaseRenew(f: Id, until: int)
    | LeaseClear
    | ReaderSequence(r: Id)
    | ReaderSnapshot(r: Id)
    | ReaderPoll(r: Id)

  const START: World := World(EMPTY, map[], map[], map[], map[], map[], [])

  // ---- Sends (resolve_send_target, start_task_turn) ----

  function ResolveTarget(st: Store, followUp: bool, inFlightHere: bool): SendPc {
    if !followUp then Resolved
    else match st.task
      case None => Refused(NotFound)
      case Some(t) =>
        if IsTerminal(t.status.state) then Refused(IsTerminalTask)
        else if !ClientHeld(t.status.state) then Refused(NotClientHeld)
        else if inFlightHere then Refused(InFlight)
        else Resolved
  }

  function RecordMessage(st: Store, x: Send, s: Id): Result<Store, StoreError> {
    if x.followUp then AppendMessage(st, x.message)
    // A new task has a fresh id, so its row cannot exist yet.
    else if st.task.Some? then Err(Backend)
    else Ok(CreateTaskWithEvents(st, x.message, BySend(s)).store)
  }

  function SetSend(w: World, s: Id, pc: SendPc): World
    requires s in w.sends
  {
    w.(sends := w.sends[s := w.sends[s].(pc := pc)])
  }

  function StepRecord(w: World, s: Id): World
    requires s in w.sends
  {
    match RecordMessage(w.store, w.sends[s], s)
    case Ok(st) => SetSend(w, s, Recorded).(store := st)
    case Err(e) => SetSend(w, s, SendPc.Failed(e))
  }

  function StepStart(w: World, s: Id): World
    requires s in w.sends
  {
    match UpdateTaskStatusWithEvents(w.store, Status(Working, None), BySend(s))
    case Ok(x) => SetSend(w, s, Started).(store := x.store)
    case Err(e) => SetSend(w, s, SendPc.Failed(e))
  }

  function NewSink(origin: Id): Sink {
    Sink(origin, true, false, false, None, None, false)
  }

  // ---- Emits (EventSinkInner::commit_status, commit_artifact) ----

  predicate InLock(pc: EmitPc) {
    pc.Holding? || pc.HasRead? || pc.Committed? || pc.Published?
  }

  function EventOf(op: EmitOp): Event {
    match op
    case EmitStatus(status) => StatusUpdate(status)
    case EmitArtifact(a, append, lastChunk) => ArtifactUpdate(a, append, lastChunk)
  }

  function Merged(t: Task, op: EmitOp): Task
    requires op.EmitArtifact?
  {
    t.(artifacts := MergeArtifact(t.artifacts, op.artifact, op.append))
  }

  /** The in-memory flags after a status commit; `yielded` fires once. */
  function AfterStatusCommit(k: Sink, c: Commit, state: TaskState): Sink {
    k.(isInterrupted := ClientHeld(state),
       isClosed := k.isClosed || IsTerminal(state),
       yielded := if (IsTerminal(state) || ClientHeld(state)) && k.yielded.None? then Some(c) else k.yielded)
  }

  function SetEmit(w: World, e: Id, pc: EmitPc): World
    requires e in w.emits
  {
    w.(emits := w.emits[e := w.emits[e].(pc := pc)])
  }

  function SetSink(w: World, f: Id, k: Sink): World {
    w.(sinks := w.sinks[f := k])
  }

  /** End the call and drop its lock guard, if it has one. */
  function Finish(w: World, e: Id, r: EmitResult): World
    requires e in w.emits && w.emits[e].sink in w.sinks
  {
    var x := w.emits[e];
    var w' := SetEmit(w, e, Finished(r));
    if InLock(x.pc) then SetSink(w', x.sink, w.sinks[x.sink].(lock := None)) else w'
  }

  function Close(w: World, f: Id): World
    requires f in w.sinks
  {
    SetSink(w, f, w.sinks[f].(isClosed := true))
  }

  function StepLock(w: World, e: Id): World
    requires e in w.emits && w.emits[e].sink in w.sinks
  {
    var f := w.emits[e].sink;
    if w.sinks[f].isClosed then Finish(w, e, SinkClosed)
    else SetSink(SetEmit(w, e, Holding), f, w.sinks[f].(lock := Some(e)))
  }

  function StepRead(w: World, e: Id): World
    requires e in w.emits && w.emits[e].sink in w.sinks
  {
    match w.store.task
    case None => Finish(w, e, StoreRefused(TaskNotFound))
    case Some(t) => SetEmit(w, e, HasRead(t))
  }

  function EmitWrite(st: Store, x: Emit, e: Id): Result<Write, StoreError>
    requires x.op.EmitArtifact? ==> x.pc.HasRead?
  {
    match x.op
    case EmitStatus(status) => UpdateTaskStatusWithEvents(st, status, ByEmit(e))
    case EmitArtifact(_, _, _) => UpdateTaskWithEvents(st, Merged(x.pc.task, x.op), EventOf(x.op), ByEmit(e))
  }

  function StepCommit(w: World, e: Id): World
    requires e in w.emits && w.emits[e].sink in w.sinks
    requires w.emits[e].op.EmitArtifact? ==> w.emits[e].pc.HasRead?
  {
    match EmitWrite(w.store, w.emits[e], e)
    case Ok(x) => SetEmit(w, e, Committed(x.commit)).(store := x.store)
    case Err(err) =>
      if err.TerminalStateAlreadySet? then Finish(Close(w, w.emits[e].sink), e, SinkClosed)
      else Finish(w, e, StoreRefused(err))
  }

  function StepPublish(w: World, e: Id): World
    requires e in w.emits && w.emits[e].sink in w.sinks && w.emits[e].pc.Committed?
  {
    var x := w.emits[e];
    var c := x.pc.commit;
    match x.op
    case EmitArtifact(_, _, _) => SetEmit(w, e, Published(c.at))
    case EmitStatus(status) =>
      // The dispatched event is rebuilt from the state alone, without the message.
      var d := Dispatch(c.at, StatusUpdate(Status(status.state, None)), c.task, ByEmit(e));
      var k := AfterStatusCommit(w.sinks[x.sink], c, status.state);
      SetEmit(SetSink(w, x.sink, k), e, Published(c.at)).(dispatches := w.dispatches + [d])
  }

  /** The call's future is gone: before its publication nothing of it shows in the sink. */
  function StepDrop(w: World, e: Id): World
    requires e in w.emits && w.emits[e].sink in w.sinks
  {
    Finish(w, e, if w.emits[e].pc.Published? then Unanswered(w.emits[e].pc.at) else Dropped)
  }

  // ---- Framework terminals (commit_framework_terminal and its callers) ----

  function SetWriter(w: World, h: Id, pc: WriterPc): World
    requires h in w.writers
  {
    w.(writers := w.writers[h := w.writers[h].(pc := pc)])
  }

  function StepWriterCommit(w: World, h: Id): World
    requires h in w.writers
  {
    match UpdateTaskStatusWithEvents(w.store, w.writers[h].status, ByWriter(h))
    case Ok(x) => SetWriter(w, h, Won(x.commit)).(store := x.store)
    case Err(e) => SetWriter(w, h, if e.TerminalStateAlreadySet? then Lost else GaveUp(e))
  }

  function StepWriterDispatch(w: World, h: Id): World
    requires h in w.writers && w.writers[h].pc.Won?
  {
    var x := w.writers[h];
    var d := Dispatch(x.pc.commit.at, StatusUpdate(x.status), x.pc.commit.task, ByWriter(h));
    SetWriter(w, h, Answered(x.pc.commit.task)).(dispatches := w.dispatches + [d])
  }

  function StepWriterReread(w: World, h: Id): World
    requires h in w.writers
  {
    SetWriter(w, h, match w.store.task case None => GaveUp(TaskNotFound) case Some(t) => Answered(t))
  }

  // ---- Streams (open_send_stream, open_subscribe_stream, task_event_stream) ----

  predicate ClosesStream(s: TaskState) {
    IsTerminal(s) || s.InputRequired?
  }

  predicate ClosingEvent(e: Event) {
    e.StatusUpdate? && ClosesStream(e.status.state)
  }

  /** The events one poll sends: all of them, or those up to the first closing one. */
  function Deliver(log: seq<Entry>): seq<Event> {
    if log == [] then []
    else if ClosingEvent(log[0].event) then [log[0].event]
    else [log[0].event] + Deliver(log[1..])
  }

  function StepSnapshot(w: World, r: Id): Reader
    requires r in w.readers && w.readers[r].HasSequence?
  {
    var s := w.readers[r].sequence;
    match w.store.task
    case None => NotOpened
    case Some(t) => Streaming(s, t, |w.store.log|, s, [], !ClosesStream(t.status.state))
  }

  function StepPoll(w: World, r: Id): Reader
    requires r in w.readers && w.readers[r].Streaming? && w.readers[r].last <= |w.store.log|
  {
    var x := w.readers[r];
    var events := Deliver(w.store.log[x.last..]);
    x.(last := x.last + |events|,
       delivered := x.delivered + events,
       open := events == [] || !ClosingEvent(events[|events| - 1]))
  }

  // ---- The step function ----

  function StepSend(w: World, l: Label): World {
    match l
    case SendResolve(s, m, followUp, inFlight) =>
      if s in w.sends then w
      else w.(sends := w.sends[s := Send(m, followUp, ResolveTarget(w.store, followUp, inFlight))])
    case SendRecord(s) =>
      if s in w.sends && w.sends[s].pc.Resolved? then StepRecord(w, s) else w
    case SendLease(s, expires) =>
      if s in w.sends && w.sends[s].pc.Recorded?
      then SetSend(w, s, Leased).(store :=
             match expires case None => w.store case Some(x) => WriteLease(w.store, Some(Lease(x, s))))
      else w
    case SendStart(s) =>
      if s in w.sends && w.sends[s].pc.Leased? then StepStart(w, s) else w
    case SendSpawn(s, f) =>
      if s in w.sends && w.sends[s].pc.Started? && f !in w.sinks
      then SetSink(SetSend(w, s, Spawned(f)), f, NewSink(s))
      else w
    case SendEnqueue(s) =>
      if s in w.sends && w.sends[s].pc.Started? then SetSend(w, s, Enqueued) else w
    case SendCompensate(s, h, reason) =>
      if s in w.sends && w.sends[s].pc.Started? && h !in w.writers
      then SetSend(w, s, Compensated(h)).(
             writers := w.writers[h := Writer(Status(TaskState.Failed, Some(reason)), Ready)])
      else w
    case SendFail(s) =>
      if s in w.sends
         && (w.sends[s].pc.Resolved? || w.sends[s].pc.Recorded? || w.sends[s].pc.Leased? || w.sends[s].pc.Started?)
      then SetSend(w, s, SendPc.Failed(Backend))
      else w
    case JobSpawn(s, f) =>
      if s in w.sends && w.sends[s].pc.Enqueued? && f !in w.sinks then SetSink(w, f, NewSink(s)) else w
    case SinkExit(f) =>
      if f in w.sinks && forall e :: e in w.emits && w.emits[e].sink == f ==> w.emits[e].pc.Finished?
      then SetSink(w, f, w.sinks[f].(live := false))
      else w
    case SenderDrop(f) =>
      if f in w.sinks && !w.sinks[f].live && w.sinks[f].yielded.None?
      then SetSink(w, f, w.sinks[f].(dropped := true))
      else w
    case _ => w
  }

  function StepEmit(w: World, l: Label): World {
    match l
    case EmitCall(e, f, op) =>
      if e !in w.emits && f in w.sinks && w.sinks[f].live
      then w.(emits := w.emits[e := Emit(f, op, Waiting)])
      else w
    case EmitLock(e) =>
      if e in w.emits && w.emits[e].pc.Waiting? && w.emits[e].sink in w.sinks && w.sinks[w.emits[e].sink].lock.None?
      then StepLock(w, e)
      else w
    case EmitRead(e) =>
      if e in w.emits && w.emits[e].pc.Holding? && w.emits[e].op.EmitArtifact? && w.emits[e].sink in w.sinks
      then StepRead(w, e)
      else w
    case EmitCommit(e) =>
      if e in w.emits && w.emits[e].sink in w.sinks
         && (if w.emits[e].op.EmitStatus? then w.emits[e].pc.Holding? else w.emits[e].pc.HasRead?)
      then StepCommit(w, e)
      else w
    case EmitPublish(e) =>
      if e in w.emits && w.emits[e].pc.Committed? && w.emits[e].sink in w.sinks then StepPublish(w, e) else w
    case EmitReturn(e) =>
      if e in w.emits && w.emits[e].pc.Published? && w.emits[e].sink in w.sinks
      then Finish(w, e, Emitted(w.emits[e].pc.at))
      else w
    case EmitFail(e) =>
      if e in w.emits && (w.emits[e].pc.Holding? || w.emits[e].pc.HasRead?) && w.emits[e].sink in w.sinks
      then Finish(w, e, StoreRefused(Backend))
      else w
    case EmitDrop(e) =>
      if e in w.emits && !w.emits[e].pc.Finished? && w.emits[e].sink in w.sinks then StepDrop(w, e) else w
    case _ => w
  }

  function StepOther(w: World, l: Label): World {
    match l
    case WriterStart(h, status) =>
      if h !in w.writers && IsTerminal(status.state)
      then w.(writers := w.writers[h := Writer(status, Ready)])
      else w
    case WriterCommit(h) =>
      if h in w.writers && w.writers[h].pc.Ready? then StepWriterCommit(w, h) else w
    case WriterDispatch(h) =>
      if h in w.writers && w.writers[h].pc.Won? then StepWriterDispatch(w, h) else w
    case WriterReread(h) =>
      if h in w.writers && w.writers[h].pc.Lost? then StepWriterReread(w, h) else w
    case WriterFail(h) =>
      if h in w.writers && (w.writers[h].pc.Ready? || w.writers[h].pc.Lost?) then SetWriter(w, h, GaveUp(Backend)) else w
    case MarkCancel(_) =>
      if SetCancelRequested(w.store).Ok? then w.(store := SetCancelRequested(w.store).value) else w
    case LeaseRenew(f, until) =>
      if f in w.sinks then w.(store := WriteLease(w.store, Some(Lease(until, w.sinks[f].origin)))) else w
    case LeaseClear => w.(store := WriteLease(w.store, None))
    case ReaderSequence(r) =>
      if r in w.readers then w else w.(readers := w.readers[r := HasSequence(|w.store.log|)])
    case ReaderSnapshot(r) =>
      if r in w.readers && w.readers[r].HasSequence? then w.(readers := w.readers[r := StepSnapshot(w, r)]) else w
    case ReaderPoll(r) =>
      if r in w.readers && w.readers[r].Streaming? && w.readers[r].open && w.readers[r].last <= |w.store.log|
      then w.(readers := w.readers[r := StepPoll(w, r)])
      else w
    case _ => w
  }

  predicate IsSendLabel(l: Label) {
    l.SendResolve? || l.SendRecord? || l.SendLease? || l.SendStart? || l.SendSpawn?
    || l.SendEnqueue? || l.SendCompensate? || l.SendFail? || l.JobSpawn? || l.SinkExit? || l.SenderDrop?
  }

  predicate IsEmitLabel(l: Label) {
    l.EmitCall? || l.EmitLock? || l.EmitRead? || l.EmitCommit? || l.EmitPublish? || l.EmitReturn?
    || l.EmitFail? || l.EmitDrop?
  }

  function Step(w: World, l: Label): World {
    if IsSendLabel(l) then StepSend(w, l)
    else if IsEmitLabel(l) then StepEmit(w, l)
    else StepOther(w, l)
  }

  function Run(w: World, ls: seq<Label>): World {
    if ls == [] then w else Step(Run(w, ls[..|ls| - 1]), ls[|ls| - 1])
  }

  lemma {:induction false} RunConcat(w: World, a: seq<Label>, b: seq<Label>)
    ensures Run(w, a + b) == Run(Run(w, a), b)
  {
    hide Step;
    if b == [] {
      assert a + b == a;
    } else {
      RunConcat(w, a, b[..|b| - 1]);
      assert (a + b)[..|a + b| - 1] == a + b[..|b| - 1];
    }
  }
}
