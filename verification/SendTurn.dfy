// SendMessage: resolve the target, start the turn, register, enqueue or spawn, and wait.
module SendTurn {
  import opened Wrappers
  import opened Lifecycle
  import opened TaskLog
  import opened AtomicStore
  import opened Protocol
  import opened Footprints
  import opened Safety
  import opened Records
  import opened Commits
  import opened Refusals
  import opened Messages
  import opened Theorems
  import opened Streams
  import opened Handlers
  import opened BlockingSend

  // The reasons given for a turn whose executor never ran; the source adds the error's text.
  const UNREGISTERED := "inline push notification config registration failed"

  const NOT_ENQUEUED := "durable executor enqueue failed"

  datatype Mode = Blocking | ReturnImmediately | Queued

  datatype Outcome =
    | RefusedFor(why: Refusal)
    | NotStarted(error: StoreError)
    | Unregistered
    | NotEnqueued
    | NotSpawned
    | InProgress(current: Result<Task, StoreError>)
    | Waited(answer: Result<Task, SendError>, path: Path)

  // Which calls of a send fail, if they are made: those that start the turn, the registration
  // of its push config, the hand-over to the queue or to an executor of this instance, the
  // read of an answer in progress, and those of a write that forces a terminal.
  datatype SendFaults = SendFaults(turn: TurnFaults, register: bool, handOver: bool, read: bool, write: WriteFaults)

  // The send is this far, and has neither a sink nor a framework writer yet.
  ghost predicate At(w: World, me: Me, pc: SendPc) {
    me.send in w.sends && w.sends[me.send].pc == pc && me.sink !in w.sinks && me.writer !in w.writers
  }

  /** Nothing in the log, and no executor, comes from this send; and but for the list of sends
      the world is the one that would be without it. */
  ghost predicate LeftNoTrace(schedule: seq<Label>, s: Id) {
    var w := Run(START, schedule);
    && Run(START, Without(schedule, s)) == Forget(w, s)
    && (forall i | 0 <= i < |w.store.log| :: w.store.log[i].author != BySend(s))
    && (forall f | f in w.sinks :: w.sinks[f].origin != s)
  }

  lemma RefusedLeftNoTrace(schedule: seq<Label>, s: Id)
    requires s in Run(START, schedule).sends && Run(START, schedule).sends[s].pc.Refused?
    ensures LeftNoTrace(schedule, s)
  {
    hide Run;
    ReachableInv(schedule);
    RefusedLeavesNoTrace(schedule, s);
    var w := Run(START, schedule);
    forall i | 0 <= i < |w.store.log| ensures w.store.log[i].author != BySend(s) {
      assert AuthorOk(w, w.store.log[i].author);
    }
  }

  // The storage calls of start_task_turn, in order, and where each leads.
  predicate IsStorageCall(l: Label, s: Id, from: SendPc, to: SendPc) {
    || (l == SendRecord(s) && from == Resolved && to == Recorded)
    || (l.SendLease? && l.s == s && from == Recorded && to == Leased)
    || (l == SendStart(s) && from == Leased && to == Started)
  }

  lemma StorageCallMoves(w: World, l: Label, me: Me, from: SendPc, to: SendPc)
    requires At(w, me, from) && IsStorageCall(l, me.send, from, to)
    ensures var w' := Step(w, l);
            At(w', me, to) || (me.send in w'.sends && w'.sends[me.send].pc.Failed? && At(w', me, w'.sends[me.send].pc))
  {
  }

  lemma StartLogsWorking(w: World, s: Id)
    requires s in w.sends && w.sends[s].pc.Leased?
    ensures var w' := Step(w, SendStart(s));
            s in w'.sends && w'.sends[s].pc.Started? ==>
              w'.store.log == w.store.log + [Entry(StatusUpdate(Status(Working, None)), BySend(s))]
  {
  }

  /** The store, as it is, turns this call of send x down with this error: a message for a task
      that is not there, a creation over one that is, or WORKING from a state that the executor
      holds or that ends the task. */
  ghost predicate Declines(st: Store, x: Send, l: Label, e: StoreError) {
    match l
    case SendRecord(_) =>
      if x.followUp then st.task.None? && e == TaskNotFound else st.task.Some? && e == Backend
    case SendStart(_) =>
      (match st.task
       case None => e == TaskNotFound
       case Some(t) =>
         if t.status.state.Working? then e == InvalidMove(Working, Working)
         else IsTerminal(t.status.state) && e == TerminalStateAlreadySet(t.status.state))
    case _ => false
  }

  lemma RecordDeclined(w: World, s: Id)
    requires s in w.sends
    ensures var w' := StepRecord(w, s);
            s in w'.sends && w'.sends[s].pc.Failed? ==>
              Declines(w'.store, w'.sends[s], SendRecord(s), w'.sends[s].pc.error)
  {
    hide CreateTaskWithEvents;
  }

  lemma StartDeclined(w: World, s: Id)
    requires s in w.sends
    ensures var w' := StepStart(w, s);
            s in w'.sends && w'.sends[s].pc.Failed? ==>
              Declines(w'.store, w'.sends[s], SendStart(s), w'.sends[s].pc.error)
  {
    StatusAcceptedExactly(w.store, Status(Working, None), BySend(s));
  }

  lemma StorageCallDeclined(w: World, l: Label, me: Me, from: SendPc, to: SendPc)
    requires At(w, me, from) && IsStorageCall(l, me.send, from, to)
    ensures var w' := Step(w, l);
            me.send in w'.sends && w'.sends[me.send].pc.Failed? ==>
              Declines(w'.store, w'.sends[me.send], l, w'.sends[me.send].pc.error)
  {
    hide WriteLease;
    match l
    case SendRecord(s) =>
      hide StepRecord, Declines;
      RecordDeclined(w, s);
    case SendStart(s) =>
      hide StepStart, Declines;
      StartDeclined(w, s);
    case SendLease(_, _) =>
  }

  // At moment n of the schedule the send was this far.
  ghost predicate FarAt(schedule: seq<Label>, s: Id, pc: SendPc, n: nat) {
    n <= |schedule| && s in Run(START, schedule[..n]).sends && Run(START, schedule[..n]).sends[s].pc == pc
  }

  // The last step is this call, taken when the send was this far.
  ghost predicate LastCall(schedule: seq<Label>, s: Id, l: Label, from: SendPc) {
    schedule != [] && schedule[|schedule| - 1] == l && FarAt(schedule, s, from, |schedule| - 1)
  }

  method StorageCall(server: Server, me: Me, l: Label, ghost from: SendPc, to: SendPc, fails: bool)
    returns (r: Result<(), StoreError>)
    requires server.Valid() && At(server.world, me, from) && IsStorageCall(l, me.send, from, to)
    modifies server
    ensures server.Later()
    ensures match r
            case Ok(_) => !fails && At(server.world, me, to)
            case Err(e) =>
              && At(server.world, me, SendPc.Failed(e))
              && if fails then e == Backend else Declines(server.world.store, server.world.sends[me.send], l, e)
    ensures r.Ok? && l.SendStart? ==>
              server.world.store.log != [] &&
              server.world.store.log[|server.world.store.log| - 1] ==
                Entry(StatusUpdate(Status(Working, None)), BySend(me.send))
    ensures r.Ok? ==> LastCall(server.schedule, me.send, l, from)
  {
    hide Run, Step, Declines;
    server.Await(me);
    ghost var before, prior := server.world, server.schedule;
    if fails {
      SendFails(before, me);
      server.Take(SendFail(me.send));
      return Err(Backend);
    }
    server.Take(l);
    StorageCallMoves(before, l, me, from, to);
    StorageCallDeclined(before, l, me, from, to);
    if l.SendStart? {
      StartLogsWorking(before, me.send);
    }
    assert server.schedule[..|prior|] == prior;
    return if server.world.sends[me.send].pc == to then Ok(()) else Err(server.world.sends[me.send].pc.error);
  }

  lemma SendFails(w: World, me: Me)
    requires me.send in w.sends && At(w, me, w.sends[me.send].pc)
    requires var pc := w.sends[me.send].pc; pc.Resolved? || pc.Recorded? || pc.Leased? || pc.Started?
    ensures At(Step(w, SendFail(me.send)), me, SendPc.Failed(Backend))
    ensures Step(w, SendFail(me.send)).store == w.store
  {
  }

  // Which calls of start_task_turn fail, if they are made.
  datatype TurnFaults = TurnFaults(record: bool, lease: bool, start: bool)

  // Without a ttl no lease is written.
  predicate AnyTurnFault(f: TurnFaults, leaseTtl: Option<nat>) {
    f.record || (f.lease && leaseTtl.Some?) || f.start
  }

  ghost predicate WasAt(schedule: seq<Label>, s: Id, pc: SendPc) {
    exists n: nat :: FarAt(schedule, s, pc, n)
  }

  lemma IsAt(schedule: seq<Label>, me: Me, pc: SendPc)
    requires At(Run(START, schedule), me, pc)
    ensures WasAt(schedule, me.send, pc) && me.send in Run(START, schedule).sends
  {
    hide Run;
    assert schedule[..|schedule|] == schedule;
    assert FarAt(schedule, me.send, pc, |schedule|);
  }

  lemma StaysAt(before: seq<Label>, after: seq<Label>, s: Id, pc: SendPc)
    requires before <= after && WasAt(before, s, pc)
    ensures WasAt(after, s, pc)
  {
    hide Run;
    var n: nat :| FarAt(before, s, pc, n);
    assert after[..n] == before[..n];
    assert FarAt(after, s, pc, n);
  }

  /** The turn got this far and its next call failed, or the store declined it. */
  ghost predicate StoppedAt(schedule: seq<Label>, me: Me, f: TurnFaults, leaseTtl: Option<nat>, e: StoreError,
                            far: SendPc)
  {
    var w := Run(START, schedule);
    && me.send in w.sends && WasAt(schedule, me.send, far)
    && match far
       case Resolved => if f.record then e == Backend else Declines(w.store, w.sends[me.send], SendRecord(me.send), e)
       case Recorded => !f.record && f.lease && leaseTtl.Some? && e == Backend
       case Leased =>
         && !f.record && !(f.lease && leaseTtl.Some?)
         && if f.start then e == Backend else Declines(w.store, w.sends[me.send], SendStart(me.send), e)
       case _ => false
  }

  ghost predicate Stopped(schedule: seq<Label>, me: Me, f: TurnFaults, leaseTtl: Option<nat>, e: StoreError) {
    exists far: SendPc :: StoppedAt(schedule, me, f, leaseTtl, e, far)
  }

  lemma Stops(schedule: seq<Label>, me: Me, f: TurnFaults, leaseTtl: Option<nat>, e: StoreError, far: SendPc)
    requires StoppedAt(schedule, me, f, leaseTtl, e, far)
    ensures Stopped(schedule, me, f, leaseTtl, e)
  {
  }

  /** The turn's lease was written when its message had been recorded, to run out one ttl after
      some moment of the call; without a ttl there is none. */
  ghost predicate LeaseWritten(schedule: seq<Label>, s: Id, leaseTtl: Option<nat>, early: int, late: int) {
    exists n: nat :: n < |schedule| && LeaseStep(schedule[n], s, leaseTtl, early, late) && FarAt(schedule, s, Recorded, n)
  }

  predicate LeaseStep(l: Label, s: Id, leaseTtl: Option<nat>, early: int, late: int) {
    && l.SendLease? && l.s == s
    && match leaseTtl
       case None => l.expires.None?
       case Some(ttl) => l.expires.Some? && early + ttl <= l.expires.value <= late + ttl
  }

  /** The message, the lease, and then WORKING. Ok means that the turn has started: its WORKING
      is the last entry of the log, the send's message is in the row that it wrote, and its lease
      runs one ttl from then. An error is that of the first call that fails or that the store
      declines. */
  method StartTaskTurn(server: Server, me: Me, leaseTtl: Option<nat>, f: TurnFaults) returns (r: Result<(), StoreError>)
    requires server.Valid() && At(server.world, me, Resolved)
    modifies server
    ensures server.Later()
    ensures match r
            case Ok(_) =>
              && !AnyTurnFault(f, leaseTtl)
              && At(server.world, me, Started) && server.world.store.task.Some? && server.world.store.log != []
              && server.world.store.log[|server.world.store.log| - 1] ==
                   Entry(StatusUpdate(Status(Working, None)), BySend(me.send))
              && MessageRecorded(server.schedule, me.send, old(server.world.sends[me.send].message),
                                 old(server.world.sends[me.send].followUp))
              && LeaseWritten(server.schedule, me.send, leaseTtl, old(server.now), server.now)
            case Err(e) => At(server.world, me, SendPc.Failed(e)) && Stopped(server.schedule, me, f, leaseTtl, e)
  {
    hide Run, Step, RecordsInv, WasAt, Declines, Stopped, At, MessageRecorded, LeaseWritten, FarAt, LastCall;
    IsAt(server.schedule, me, Resolved);
    ghost var resolved := server.schedule;
    r := StorageCall(server, me, SendRecord(me.send), Resolved, Recorded, f.record);
    if r.Err? {
      StaysAt(resolved, server.schedule, me.send, Resolved);
      IsAt(server.schedule, me, SendPc.Failed(r.error));
      Stops(server.schedule, me, f, leaseTtl, r.error, Resolved);
      return;
    }
    var expires := match leaseTtl case None => None case Some(ttl) => Some(server.now + ttl);
    IsAt(server.schedule, me, Recorded);
    ghost var recorded := server.schedule;
    r := StorageCall(server, me, SendLease(me.send, expires), Recorded, Leased, f.lease && leaseTtl.Some?);
    if r.Err? {
      StaysAt(recorded, server.schedule, me.send, Recorded);
      IsAt(server.schedule, me, SendPc.Failed(r.error));
      NoLeaseIsDeclined(server.world.store, server.world.sends[me.send], SendLease(me.send, expires));
      Stops(server.schedule, me, f, leaseTtl, r.error, Recorded);
      return;
    }
    IsAt(server.schedule, me, Leased);
    ghost var leased, written := server.schedule, server.now;
    LeaseIsWritten(leased, SendLease(me.send, expires), me.send, leaseTtl, old(server.now), written);
    r := StorageCall(server, me, SendStart(me.send), Leased, Started, f.start);
    if r.Err? {
      StaysAt(leased, server.schedule, me.send, Leased);
      IsAt(server.schedule, me, SendPc.Failed(r.error));
      Stops(server.schedule, me, f, leaseTtl, r.error, Leased);
      return;
    }
    LoggedExactlyIfStored(server.schedule);
    LeaseStaysWritten(leased, server.schedule, me.send, leaseTtl, old(server.now), written, server.now);
    StartedWithItsMessage(resolved, server.schedule, me);
  }

  lemma LeaseIsWritten(schedule: seq<Label>, l: Label, s: Id, leaseTtl: Option<nat>, early: int, late: int)
    requires LastCall(schedule, s, l, Recorded) && LeaseStep(l, s, leaseTtl, early, late)
    ensures LeaseWritten(schedule, s, leaseTtl, early, late)
  {
  }

  lemma LeaseStaysWritten(before: seq<Label>, after: seq<Label>, s: Id, leaseTtl: Option<nat>, early: int,
                          late: int, later: int)
    requires before <= after && LeaseWritten(before, s, leaseTtl, early, late) && late <= later
    ensures LeaseWritten(after, s, leaseTtl, early, later)
  {
    hide Run;
    var n: nat :| n < |before| && LeaseStep(before[n], s, leaseTtl, early, late) && FarAt(before, s, Recorded, n);
    assert after[..n] == before[..n];
    assert FarAt(after, s, Recorded, n);
  }

  lemma StartedWithItsMessage(before: seq<Label>, after: seq<Label>, me: Me)
    requires before <= after && me.send in Run(START, before).sends && At(Run(START, after), me, Started)
    ensures var x := Run(START, before).sends[me.send];
            MessageRecorded(after, me.send, x.message, x.followUp)
  {
    hide Run, MessageRecorded;
    assert before + after[|before|..] == after;
    MessagesStay(before, after[|before|..], me.send);
    MessageReachesTheTask(after, me.send);
  }

  lemma NoLeaseIsDeclined(st: Store, x: Send, l: Label)
    requires l.SendLease?
    ensures forall e :: !Declines(st, x, l, e)
  {
  }

  method Resolve(server: Server, me: Me, message: string, followUp: bool, inFlightHere: bool) returns (r: Option<Refusal>)
    requires server.Valid() && me.send !in server.world.sends
    requires me.sink !in server.world.sinks && me.writer !in server.world.writers
    modifies server
    ensures server.Later() && me.send in server.world.sends
    ensures server.world.sends[me.send].message == message && server.world.sends[me.send].followUp == followUp
    ensures match r
            case None => At(server.world, me, Resolved) && (followUp ==> Accepts(server.world.store) && !inFlightHere)
            case Some(why) =>
              && At(server.world, me, Refused(why)) && LeftNoTrace(server.schedule, me.send)
              && followUp && RefusalIsApt(server.world.store, why, inFlightHere)
  {
    server.Await(me);
    ghost var before := server.world;
    server.Take(SendResolve(me.send, message, followUp, inFlightHere));
    ResolveOutcome(before, me, message, followUp, inFlightHere);
    match server.world.sends[me.send].pc
    case Refused(why) =>
      RefusedLeftNoTrace(server.schedule, me.send);
      return Some(why);
    case _ => return None;
  }

  /** Only a task that the client holds takes a follow-up. */
  ghost predicate Accepts(st: Store) {
    st.task.Some? && ClientHeld(st.task.value.status.state)
  }

  /** Why a follow-up may be turned away. */
  ghost predicate RefusalIsApt(st: Store, why: Refusal, inFlightHere: bool) {
    match why
    case NotFound => st.task.None?
    case IsTerminalTask => Terminal(st)
    case NotClientHeld => st.task.Some? && ExecutorHeld(st.task.value.status.state)
    case InFlight => st.task.Some? && ClientHeld(st.task.value.status.state) && inFlightHere
  }

  lemma ResolveOutcome(w: World, me: Me, message: string, followUp: bool, inFlightHere: bool)
    requires me.send !in w.sends && me.sink !in w.sinks && me.writer !in w.writers
    ensures var w' := Step(w, SendResolve(me.send, message, followUp, inFlightHere));
            && me.send in w'.sends && At(w', me, w'.sends[me.send].pc) && w'.store == w.store
            && w'.sends[me.send].message == message && w'.sends[me.send].followUp == followUp
            && match w'.sends[me.send].pc
               case Resolved => followUp ==> Accepts(w.store) && !inFlightHere
               case Refused(why) => followUp && RefusalIsApt(w.store, why, inFlightHere)
               case _ => false
  {
  }

  // The FAILED that stands in for an executor that never ran.
  method FailUnstarted(server: Server, me: Me, reason: string, fails: bool)
    requires server.Valid() && At(server.world, me, Started)
    modifies server
    ensures server.Later() && Abandoned(server.world, me, reason)
    ensures server.world.writers[me.writer].pc == GaveUp(Backend) <==> fails
    ensures server.world.writers[me.writer].pc.GaveUp? && !fails ==>
              server.world.writers[me.writer].pc.error == TaskNotFound && old(server.world.store.task).None?
  {
    ghost var before := server.world;
    server.Take(SendCompensate(me.send, me.writer, reason));
    CompensationStarts(before, me, reason);
    ghost var compensating := server.world.sends[me.send];
    ghost var mid := server.schedule;
    var outcome := server.FinishWrite(me, fails);
    ghost var more := server.schedule[|mid|..];
    assert server.schedule == mid + more;
    CompensatedSendHasNoExecutor(mid, more, me.send);
    RunConcat(START, mid, more);
    RunKeepsSettled(Run(START, mid), more, me.send);
    ReachableInv(server.schedule);
  }

  /** The send has no executor and gets none; its task is terminal, unless the compensating
      write did not reach the store. */
  ghost predicate Abandoned(w: World, me: Me, reason: string) {
    && me.send in w.sends && w.sends[me.send].pc == Compensated(me.writer)
    && (forall f | f in w.sinks :: w.sinks[f].origin != me.send)
    && me.writer in w.writers && w.writers[me.writer].status == Status(TaskState.Failed, Some(reason))
    && (w.writers[me.writer].pc.GaveUp? || Terminal(w.store))
  }

  /** Which of the two: the compensating write fails, or the task is terminal. */
  ghost predicate AbandonedAs(w: World, me: Me, reason: string, fails: bool) {
    Abandoned(w, me, reason) && if fails then w.writers[me.writer].pc == GaveUp(Backend) else Terminal(w.store)
  }

  lemma CompensationStarts(w: World, me: Me, reason: string)
    requires At(w, me, Started)
    ensures var w' := Step(w, SendCompensate(me.send, me.writer, reason));
            && me.send in w'.sends && w'.sends[me.send].pc == Compensated(me.writer)
            && me.writer in w'.writers && w'.writers[me.writer] == Writer(Status(TaskState.Failed, Some(reason)), Ready)
  {
  }

  lemma SpawnStarts(w: World, me: Me)
    requires At(w, me, Started)
    ensures var w' := Step(w, SendSpawn(me.send, me.sink));
            && me.sink in w'.sinks && w'.sinks[me.sink] == NewSink(me.send)
            && me.writer !in w'.writers && w'.store == w.store
            && me.send in w'.sends && w'.sends[me.send].pc == Spawned(me.sink)
  {
  }

  lemma EnqueueSettles(w: World, me: Me)
    requires At(w, me, Started)
    ensures var w' := Step(w, SendEnqueue(me.send)); At(w', me, Enqueued)
  {
  }

  // Entry k starts the turn of send s.
  ghost predicate StartsAt(st: Store, s: Id, k: nat) {
    k < |st.log| && st.log[k] == Entry(StatusUpdate(Status(Working, None)), BySend(s))
  }

  ghost predicate HasStarted(st: Store, s: Id) {
    exists k: nat :: StartsAt(st, s, k)
  }

  lemma JustStarted(st: Store, s: Id)
    requires st.log != [] && StartsAt(st, s, |st.log| - 1)
    ensures HasStarted(st, s)
  {
  }

  lemma StaysStarted(before: Store, after: Store, s: Id)
    requires HasStarted(before, s) && before.log <= after.log
    ensures HasStarted(after, s)
  {
    var k: nat :| StartsAt(before, s, k);
    assert StartsAt(after, s, k);
  }

  /** Everything before the executor is handed the turn; None if nothing stopped it. */
  method Prepare(server: Server, me: Me, message: string, followUp: bool, inFlightHere: bool,
                 pushConfig: bool, leaseTtl: Option<nat>, f: SendFaults)
    returns (out: Option<Outcome>)
    requires server.Valid() && me.send !in server.world.sends
    requires me.sink !in server.world.sinks && me.writer !in server.world.writers
    modifies server
    ensures server.Later()
    ensures match out
            case None =>
              && !AnyTurnFault(f.turn, leaseTtl) && !(pushConfig && f.register)
              && At(server.world, me, Started) && server.world.store.task.Some?
              && HasStarted(server.world.store, me.send)
              && MessageRecorded(server.schedule, me.send, message, followUp)
            case Some(RefusedFor(why)) =>
              LeftNoTrace(server.schedule, me.send) && followUp && RefusalIsApt(server.world.store, why, inFlightHere)
            case Some(NotStarted(e)) =>
              At(server.world, me, SendPc.Failed(e)) && Stopped(server.schedule, me, f.turn, leaseTtl, e)
            case Some(o) =>
              && o == Unregistered && pushConfig && f.register && !AnyTurnFault(f.turn, leaseTtl)
              && AbandonedAs(server.world, me, UNREGISTERED, f.write.commit)
              && MessageRecorded(server.schedule, me.send, message, followUp)
  {
    hide MessageRecorded, LeaseWritten, Run, Step, LeftNoTrace, RefusalIsApt, Abandoned, Accepts, IsTerminal,
      ClientHeld, RecordsInv, HasStarted, Stopped, AnyTurnFault;
    var refusal := Resolve(server, me, message, followUp, inFlightHere);
    if refusal.Some? {
      return Some(RefusedFor(refusal.value));
    }
    var started := StartTaskTurn(server, me, leaseTtl, f.turn);
    if started.Err? {
      return Some(NotStarted(started.error));
    }
    JustStarted(server.world.store, me.send);
    ghost var before, recorded := server.world.store, server.schedule;
    if pushConfig {
      server.Await(me);
      if f.register {
        FailUnstarted(server, me, UNREGISTERED, f.write.commit);
        StaysRecorded(recorded, server.schedule, me.send, message, followUp);
        return Some(Unregistered);
      }
      StaysStarted(before, server.world.store, me.send);
      StaysRecorded(recorded, server.schedule, me.send, message, followUp);
    }
    return None;
  }

  /** The turn has been handed over: to the queue, without an executor of this request's, or to
      an executor of this instance. */
  ghost predicate HandedOver(w: World, me: Me, queued: bool) {
    && me.send in w.sends && w.sends[me.send].pc == (if queued then Enqueued else Spawned(me.sink))
    && (me.sink in w.sinks <==> !queued)
    && (!queued ==> w.sinks[me.sink].origin == me.send)
  }

  lemma StaysHandedOver(before: seq<Label>, after: seq<Label>, me: Me)
    requires before <= after && HandedOver(Run(START, before), me, false)
    ensures HandedOver(Run(START, after), me, false)
  {
    hide Run;
    var more := after[|before|..];
    assert after == before + more;
    RunConcat(START, before, more);
    RunKeepsSettled(Run(START, before), more, me.send);
    RunKeepsOrigin(Run(START, before), more, me.sink);
  }

  lemma UntouchedIsHandedOver(w: World, w': World, me: Me, queued: bool)
    requires HandedOver(w, me, queued) && Untouched(w, w', me)
    ensures HandedOver(w', me, queued)
  {
  }

  method Enqueue(server: Server, me: Me, f: SendFaults) returns (ok: bool)
    requires server.Valid() && At(server.world, me, Started) && server.world.store.task.Some?
    modifies server
    ensures server.Later() && ok == !f.handOver
    ensures if ok then HandedOver(server.world, me, true) else AbandonedAs(server.world, me, NOT_ENQUEUED, f.write.commit)
  {
    server.Await(me);
    ok := !f.handOver;
    if ok {
      EnqueueSettles(server.world, me);
      server.Take(SendEnqueue(me.send));
    } else {
      FailUnstarted(server, me, NOT_ENQUEUED, f.write.commit);
    }
  }

  // Spawning fails if this instance's registry still holds an executor of the task. Nothing
  // compensates for that: the task stays WORKING.
  method Spawn(server: Server, me: Me, collides: bool) returns (ok: bool)
    requires server.Valid() && At(server.world, me, Started)
    modifies server
    ensures server.Later() && ok == !collides
    ensures if ok
            then && HandedOver(server.world, me, false)
                 && !SenderGone(server.world, me.sink) && me.writer !in server.world.writers
            else At(server.world, me, SendPc.Failed(Backend)) && server.world.store == old(server.world.store)
  {
    ok := !collides;
    if ok {
      SpawnStarts(server.world, me);
      server.Take(SendSpawn(me.send, me.sink));
    } else {
      SendFails(server.world, me);
      server.Take(SendFail(me.send));
    }
  }

  // The wait of a blocking send whose turn had started, and was handed over since.
  method AwaitAnswer(server: Server, me: Me, ghost started: seq<Label>, blockingTimeout: nat, abortGrace: nat,
                     poll: nat, around: Surroundings, faults: WriteFaults)
    returns (answer: Result<Task, SendError>, path: Path)
    requires server.Valid() && HandedOver(server.world, me, false) && me.writer !in server.world.writers && 0 < poll
    requires !SenderGone(server.world, me.sink) && server.world.store.task.Some?
    requires started <= server.schedule && me.sink !in Run(START, started).sinks
    requires HasStarted(Run(START, started).store, me.send)
    modifies server
    ensures server.Later() && HandedOver(server.world, me, false)
    ensures AnswerIsSound(server.schedule, me, answer, path, faults)
    ensures path.Forced? && 0 < blockingTimeout + abortGrace ==>
              ForcedInQuiet(server.schedule, |old(server.schedule)|, me, around.trips.Some?)
  {
    hide Run, WasStored, HasStarted, Durable, OfTheTurn, WriteFails, ForcedInQuiet, IsTheTerminal;
    ghost var spawned := server.schedule;
    answer, path := AwaitYielded(server, me, blockingTimeout, abortGrace, poll, around, faults);
    StaysHandedOver(spawned, server.schedule, me);
    if answer.Ok? && path.OnYield? {
      YieldIsOfTheTurn(started, server.schedule, me, answer.value);
    }
  }

  lemma QuietSince(schedule: seq<Label>, start: nat, earlier: nat, me: Me, trips: bool)
    requires earlier <= start
    ensures ForcedInQuiet(schedule, start, me, trips) ==> ForcedInQuiet(schedule, earlier, me, trips)
  {
    hide ForcedAt;
  }

  /** What the sink has yielded was committed after the turn of send s started. */
  ghost predicate OfTheTurn(w: World, me: Me) {
    && me.sink in w.sinks && w.sinks[me.sink].yielded.Some?
    && exists k: nat :: StartsAt(w.store, me.send, k) && k < w.sinks[me.sink].yielded.value.at - 1
  }

  lemma YieldIsOfTheTurn(started: seq<Label>, schedule: seq<Label>, me: Me, t: Task)
    requires started <= schedule && me.sink !in Run(START, started).sinks
    requires HasStarted(Run(START, started).store, me.send) && YieldOf(schedule, me.sink, t)
    ensures OfTheTurn(Run(START, schedule), me)
  {
    hide Run, Step, WasStored, CommittedOn;
    var more := schedule[|started|..];
    assert schedule == started + more;
    var before, w := Run(START, started), Run(START, schedule);
    var k: nat :| StartsAt(before.store, me.send, k);
    LaterState(started, more);
    var c := w.sinks[me.sink].yielded.value;
    SinkCommitsLater(started, more, me.sink, c.at - 1);
    assert StartsAt(w.store, me.send, k);
  }

  /** An answer over `yielded` is of this very turn; there is none exactly if the write that
      forces a terminal fails. */
  ghost predicate AnswerIsSound(schedule: seq<Label>, me: Me, answer: Result<Task, SendError>, path: Path,
                                faults: WriteFaults)
  {
    && (match answer
        case Ok(t) => IsAnswer(schedule, me.sink, t, path) && (path.OnYield? ==> OfTheTurn(Run(START, schedule), me))
        case Err(e) => path.Forced? && e == SendError.Store(Backend))
    && (path.Forced? ==> (answer.Err? <==> WriteFails(schedule, me.writer, faults)))
  }

  /** The rest of a send whose turn has started, from its hand-over on. */
  method RunTurn(server: Server, me: Me, mode: Mode, blockingTimeout: nat, abortGrace: nat, poll: nat,
                 around: Surroundings, f: SendFaults)
    returns (out: Outcome)
    requires server.Valid() && At(server.world, me, Started) && server.world.store.task.Some? && 0 < poll
    requires HasStarted(server.world.store, me.send)
    modifies server
    ensures server.Later()
    ensures match out
            case NotEnqueued => mode.Queued? && f.handOver && AbandonedAs(server.world, me, NOT_ENQUEUED, f.write.commit)
            case NotSpawned => !mode.Queued? && f.handOver && At(server.world, me, SendPc.Failed(Backend))
            case InProgress(current) =>
              && !mode.Blocking? && !f.handOver && HandedOver(server.world, me, mode.Queued?)
              && if f.read then current == Err(Backend)
                 else current.Ok? && server.world.store.task == Some(current.value)
            case Waited(answer, path) =>
              && mode.Blocking? && !f.handOver && HandedOver(server.world, me, false)
              && AnswerIsSound(server.schedule, me, answer, path, f.write)
              && (path.Forced? && 0 < blockingTimeout + abortGrace ==>
                    ForcedInQuiet(server.schedule, |old(server.schedule)|, me, around.trips.Some?))
            case _ => false
  {
    hide HandedOver, Untouched, ForcedInQuiet, AnswerIsSound, Run, Step, HasStarted, AbandonedAs;
    ghost var started := server.schedule;
    if mode.Queued? {
      var ok := Enqueue(server, me, f);
      if !ok {
        return NotEnqueued;
      }
    } else {
      var ok := Spawn(server, me, f.handOver);
      if !ok {
        return NotSpawned;
      }
    }
    if !mode.Blocking? {
      ghost var w := server.world;
      var got := server.ReadTask(me, f.read);
      UntouchedIsHandedOver(w, server.world, me, mode.Queued?);
      return InProgress(match got case Ok(t) => Ok(t.value) case Err(e) => Err(e));
    }
    ghost var spawned := |server.schedule|;
    var answer, path := AwaitAnswer(server, me, started, blockingTimeout, abortGrace, poll, around, f.write);
    QuietSince(server.schedule, spawned, |started|, me, around.trips.Some?);
    return Waited(answer, path);
  }

  /** SendMessage. A refusal has left no trace; once the turn has started the client's message
      is in the row that it wrote; a failed registration or enqueue has no executor, now or
      later; a blocking answer is durable, and a forced one has been forced on a sink that was
      quiet. Every failure is that of a call that is made and fails, or that the store
      declines. */
  method SendMessage(server: Server, me: Me, message: string, followUp: bool, inFlightHere: bool, mode: Mode,
                     pushConfig: bool, leaseTtl: Option<nat>, blockingTimeout: nat, abortGrace: nat, poll: nat,
                     around: Surroundings, f: SendFaults)
    returns (out: Outcome)
    requires server.Valid() && 0 < poll && me.send !in server.world.sends
    requires me.sink !in server.world.sinks && me.writer !in server.world.writers
    modifies server
    ensures server.Later()
    ensures match out
            case RefusedFor(why) =>
              LeftNoTrace(server.schedule, me.send) && followUp && RefusalIsApt(server.world.store, why, inFlightHere)
            case NotStarted(e) =>
              At(server.world, me, SendPc.Failed(e)) && Stopped(server.schedule, me, f.turn, leaseTtl, e)
            case Unregistered => pushConfig && f.register && AbandonedAs(server.world, me, UNREGISTERED, f.write.commit)
            case NotEnqueued => mode.Queued? && f.handOver && AbandonedAs(server.world, me, NOT_ENQUEUED, f.write.commit)
            case NotSpawned => !mode.Queued? && f.handOver && At(server.world, me, SendPc.Failed(Backend))
            case InProgress(current) =>
              && !mode.Blocking? && HandedOver(server.world, me, mode.Queued?)
              && if f.read then current == Err(Backend)
                 else current.Ok? && server.world.store.task == Some(current.value)
            case Waited(answer, path) =>
              && mode.Blocking? && HandedOver(server.world, me, false)
              && AnswerIsSound(server.schedule, me, answer, path, f.write)
              && (path.Forced? && 0 < blockingTimeout + abortGrace ==>
                    ForcedInQuiet(server.schedule, |old(server.schedule)|, me, around.trips.Some?))
    ensures !out.RefusedFor? && !out.NotStarted? ==> MessageRecorded(server.schedule, me.send, message, followUp)
    ensures out.RefusedFor? || out.NotStarted? || !AnyTurnFault(f.turn, leaseTtl)
    ensures out.NotEnqueued? || out.NotSpawned? || out.InProgress? || out.Waited? ==> !(pushConfig && f.register)
    ensures out.InProgress? || out.Waited? ==> !f.handOver
  {
    hide HandedOver, ForcedInQuiet, AnswerIsSound, Run, Step, LeftNoTrace, RefusalIsApt, HasStarted, Stopped,
      AnyTurnFault, AbandonedAs, MessageRecorded, At;
    var stopped := Prepare(server, me, message, followUp, inFlightHere, pushConfig, leaseTtl, f);
    if stopped.Some? {
      return stopped.value;
    }
    ghost var started := server.schedule;
    out := RunTurn(server, me, mode, blockingTimeout, abortGrace, poll, around, f);
    StaysRecorded(started, server.schedule, me.send, message, followUp);
    QuietSince(server.schedule, |started|, |old(server.schedule)|, me, around.trips.Some?);
  }
}
