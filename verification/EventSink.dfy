// EventSinkInner as an object over a shared store object. A method body is the critical
// section under `commit_lock`; between an artifact commit's read and its write the other
// parties may do anything to the store that they can.
module EventSink {
  import opened Wrappers
  import opened Lifecycle
  import opened TaskLog
  import opened AtomicStore
  import opened Protocol
  import opened Footprints
  import opened Safety

  // ---- Specification ----

  // What a sink's critical section works on, and what it returns.
  datatype Section = Section(store: Store, sink: Sink, dispatches: seq<Dispatch>, result: EmitResult)

  function Refuse(st: Store, k: Sink, ds: seq<Dispatch>, err: StoreError): Section {
    if err.TerminalStateAlreadySet? then Section(st, k.(isClosed := true), ds, SinkClosed)
    else Section(st, k, ds, StoreRefused(err))
  }

  // Which storage call of a section fails without effect.
  datatype Fault = NoFault | ReadFails | WriteFails

  function StatusSection(st: Store, k: Sink, ds: seq<Dispatch>, e: Id, status: Status, fault: Fault): Section {
    if k.isClosed then Section(st, k, ds, SinkClosed)
    else if fault.WriteFails? then Section(st, k, ds, StoreRefused(Backend))
    else match UpdateTaskStatusWithEvents(st, status, ByEmit(e))
      case Ok(x) =>
        Section(x.store,
                AfterStatusCommit(k, x.commit, status.state),
                ds + [Dispatch(x.commit.at, StatusUpdate(Status(status.state, None)), x.commit.task, ByEmit(e))],
                Emitted(x.commit.at))
      case Err(err) => Refuse(st, k, ds, err)
  }

  /** `st` is the store that the section reads, `now` what the others have made of it by the
      time it writes. */
  function ArtifactSection(st: Store, now: Store, k: Sink, ds: seq<Dispatch>, e: Id, op: EmitOp, fault: Fault): Section
    requires op.EmitArtifact?
  {
    if k.isClosed then Section(st, k, ds, SinkClosed)
    else if fault.ReadFails? then Section(st, k, ds, StoreRefused(Backend))
    else if st.task.None? then Section(st, k, ds, StoreRefused(TaskNotFound))
    else if fault.WriteFails? then Section(now, k, ds, StoreRefused(Backend))
    else match UpdateTaskWithEvents(now, Merged(st.task.value, op), EventOf(op), ByEmit(e))
      case Ok(x) => Section(x.store, k, ds, Emitted(x.commit.at))
      case Err(err) => Refuse(now, k, ds, err)
  }

  // ---- The objects ----

  class StoreCell {
    var st: Store

    constructor (initial: Store)
      ensures st == initial
    {
      st := initial;
    }

    method GetTask(fails: bool) returns (r: Result<Option<Task>, StoreError>)
      ensures r == if fails then Err(Backend) else Ok(st.task)
    {
      return if fails then Err(Backend) else Ok(st.task);
    }

    method UpdateStatus(status: Status, author: Author, fails: bool) returns (r: Result<Commit, StoreError>)
      modifies this
      ensures if fails then st == old(st) && r == Err(Backend)
              else match UpdateTaskStatusWithEvents(old(st), status, author)
              case Ok(x) => st == x.store && r == Ok(x.commit)
              case Err(e) => st == old(st) && r == Err(e)
    {
      if fails {
        return Err(Backend);
      }
      match UpdateTaskStatusWithEvents(st, status, author)
      case Ok(x) =>
        st := x.store;
        return Ok(x.commit);
      case Err(e) =>
        return Err(e);
    }

    method Replace(t: Task, e: Event, author: Author, fails: bool) returns (r: Result<Commit, StoreError>)
      modifies this
      ensures if fails then st == old(st) && r == Err(Backend)
              else match UpdateTaskWithEvents(old(st), t, e, author)
              case Ok(x) => st == x.store && r == Ok(x.commit)
              case Err(err) => st == old(st) && r == Err(err)
    {
      if fails {
        return Err(Backend);
      }
      match UpdateTaskWithEvents(st, t, e, author)
      case Ok(x) =>
        st := x.store;
        return Ok(x.commit);
      case Err(err) =>
        return Err(err);
    }

    /** Others write while a sink awaits its own call. */
    method Become(now: Store)
      modifies this
      ensures st == now
    {
      st := now;
    }
  }

  class EventSinkInner {
    const origin: Id
    const store: StoreCell
    var isClosed: bool
    var isInterrupted: bool
    var yielded: Option<Commit>
    var dispatches: seq<Dispatch>

    constructor (origin: Id, store: StoreCell)
      ensures this.store == store && dispatches == [] && Value() == NewSink(origin)
    {
      this.origin, this.store := origin, store;
      isClosed, isInterrupted, yielded, dispatches := false, false, None, [];
    }

    function Value(): Sink
      reads this
    {
      Sink(origin, true, isClosed, isInterrupted, None, yielded, false)
    }

    /** Only the first call fires, and says so. */
    method FireYielded(c: Commit) returns (won: bool)
      modifies this`yielded
      ensures won <==> old(yielded).None?
      ensures yielded == if won then Some(c) else old(yielded)
    {
      won := yielded.None?;
      if won {
        yielded := Some(c);
      }
    }

    method CommitStatus(e: Id, status: Status, fault: Fault) returns (r: EmitResult)
      modifies this, store
      ensures Section(store.st, Value(), dispatches, r) ==
                StatusSection(old(store.st), old(Value()), old(dispatches), e, status, fault)
    {
      if isClosed {
        return SinkClosed;
      }
      var written := store.UpdateStatus(status, ByEmit(e), fault.WriteFails?);
      match written
      case Ok(c) =>
        dispatches := dispatches + [Dispatch(c.at, StatusUpdate(Status(status.state, None)), c.task, ByEmit(e))];
        isInterrupted := ClientHeld(status.state);
        if IsTerminal(status.state) {
          isClosed := true;
        }
        if IsTerminal(status.state) || ClientHeld(status.state) {
          var _ := FireYielded(c);
        }
        return Emitted(c.at);
      case Err(err) =>
        if err.TerminalStateAlreadySet? {
          isClosed := true;
          return SinkClosed;
        }
        return StoreRefused(err);
    }

    method CommitArtifact(e: Id, artifact: Artifact, append: bool, lastChunk: bool, now: Store, fault: Fault)
      returns (r: EmitResult)
      modifies this, store
      ensures Section(store.st, Value(), dispatches, r) ==
                ArtifactSection(old(store.st), now, old(Value()), old(dispatches), e,
                                EmitArtifact(artifact, append, lastChunk), fault)
    {
      if isClosed {
        return SinkClosed;
      }
      var got := store.GetTask(fault.ReadFails?);
      if got.Err? {
        return StoreRefused(got.error);
      }
      if got.value.None? {
        return StoreRefused(TaskNotFound);
      }
      var task := new MutableTask(got.value.value);
      task.Merge(artifact, append);
      store.Become(now);
      var written := store.Replace(task.Value(), ArtifactUpdate(artifact, append, lastChunk), ByEmit(e), fault.WriteFails?);
      match written
      case Ok(c) =>
        return Emitted(c.at);
      case Err(err) =>
        if err.TerminalStateAlreadySet? {
          isClosed := true;
          return SinkClosed;
        }
        return StoreRefused(err);
    }
  }

  // ---- A critical section is a run of protocol steps ----

  // The protocol's picture of one sink after one of its calls.
  ghost predicate Shows(w: World, e: Id, f: Id, x: Section) {
    && w.store == x.store && f in w.sinks && w.sinks[f] == x.sink && w.dispatches == x.dispatches
    && e in w.emits && w.emits[e].pc == Finished(x.result)
  }

  // A call has just been made on a sink whose lock is free.
  ghost predicate Calls(w: World, e: Id, f: Id) {
    && e in w.emits && w.emits[e].sink == f && w.emits[e].pc.Waiting?
    && f in w.sinks && w.sinks[f].live && w.sinks[f].lock.None?
  }

  lemma Locked(w: World, e: Id, f: Id)
    requires Calls(w, e, f) && !w.sinks[f].isClosed
    ensures Step(w, EmitLock(e)) == SetSink(SetEmit(w, e, Holding), f, w.sinks[f].(lock := Some(e)))
  {
  }

  lemma Accepted(w: World, e: Id, x: Write)
    requires e in w.emits && w.emits[e].sink in w.sinks
    requires if w.emits[e].op.EmitStatus? then w.emits[e].pc.Holding? else w.emits[e].pc.HasRead?
    requires EmitWrite(w.store, w.emits[e], e) == Ok(x)
    ensures Step(w, EmitCommit(e)) == SetEmit(w, e, Committed(x.commit)).(store := x.store)
  {
  }

  lemma Refused(w: World, e: Id, f: Id, err: StoreError)
    requires e in w.emits && w.emits[e].sink == f && f in w.sinks
    requires if w.emits[e].op.EmitStatus? then w.emits[e].pc.Holding? else w.emits[e].pc.HasRead?
    requires EmitWrite(w.store, w.emits[e], e) == Err(err)
    ensures Step(w, EmitCommit(e)) ==
              if err.TerminalStateAlreadySet? then Finish(Close(w, f), e, SinkClosed) else Finish(w, e, StoreRefused(err))
  {
  }

  lemma FinishShows(w: World, e: Id, f: Id, r: EmitResult)
    requires e in w.emits && w.emits[e].sink == f && f in w.sinks && InLock(w.emits[e].pc)
    ensures Shows(Finish(w, e, r), e, f, Section(w.store, w.sinks[f].(lock := None), w.dispatches, r))
  {
  }

  // The rest of a call after its write: publication and return, or nothing if it is over.
  function Complete(w: World, e: Id): World {
    Step(Step(w, EmitPublish(e)), EmitReturn(e))
  }

  /** A refused write ends the call; there is nothing to publish. */
  lemma RefusedCommit(w: World, e: Id, f: Id)
    requires e in w.emits && w.emits[e].sink == f && f in w.sinks && w.sinks[f].lock == Some(e)
    requires if w.emits[e].op.EmitStatus? then w.emits[e].pc.Holding? else w.emits[e].pc.HasRead?
    requires EmitWrite(w.store, w.emits[e], e).Err?
    ensures Shows(Complete(Step(w, EmitCommit(e)), e), e, f,
                  Refuse(w.store, w.sinks[f].(lock := None), w.dispatches, EmitWrite(w.store, w.emits[e], e).error))
  {
    hide Step;
    var err := EmitWrite(w.store, w.emits[e], e).error;
    Refused(w, e, f, err);
    var w' := Step(w, EmitCommit(e));
    if err.TerminalStateAlreadySet? {
      FinishShows(Close(w, f), e, f, SinkClosed);
    } else {
      FinishShows(w, e, f, StoreRefused(err));
    }
    NothingToPublish(w', e);
  }

  lemma NothingToPublish(w: World, e: Id)
    requires e in w.emits && w.emits[e].pc.Finished?
    ensures Complete(w, e) == w
  {
  }

  lemma StatusPublishes(w: World, e: Id, f: Id)
    requires e in w.emits && w.emits[e].sink == f && w.emits[e].pc.Committed? && w.emits[e].op.EmitStatus? && f in w.sinks
    ensures var c, status := w.emits[e].pc.commit, w.emits[e].op.status;
            Step(w, EmitPublish(e)) ==
              w.(emits := w.emits[e := w.emits[e].(pc := EmitPc.Published(c.at))],
                 sinks := w.sinks[f := AfterStatusCommit(w.sinks[f], c, status.state)],
                 dispatches := w.dispatches
                   + [Dispatch(c.at, StatusUpdate(Status(status.state, None)), c.task, ByEmit(e))])
  {
  }

  lemma ArtifactPublishes(w: World, e: Id, f: Id)
    requires e in w.emits && w.emits[e].sink == f && w.emits[e].pc.Committed? && w.emits[e].op.EmitArtifact? && f in w.sinks
    ensures Step(w, EmitPublish(e)) ==
              w.(emits := w.emits[e := w.emits[e].(pc := EmitPc.Published(w.emits[e].pc.commit.at))])
  {
  }

  lemma Returns(w: World, e: Id, f: Id)
    requires e in w.emits && w.emits[e].sink == f && w.emits[e].pc.Published? && f in w.sinks
    ensures Step(w, EmitReturn(e)) == Finish(w, e, Emitted(w.emits[e].pc.at))
  {
  }

  lemma PublishedStatus(w: World, e: Id, f: Id)
    requires e in w.emits && w.emits[e].sink == f && w.emits[e].pc.Committed? && w.emits[e].op.EmitStatus? && f in w.sinks
    ensures var c, status := w.emits[e].pc.commit, w.emits[e].op.status;
            Shows(Complete(w, e), e, f,
                  Section(w.store, AfterStatusCommit(w.sinks[f], c, status.state).(lock := None),
                          w.dispatches + [Dispatch(c.at, StatusUpdate(Status(status.state, None)), c.task, ByEmit(e))],
                          Emitted(c.at)))
  {
    hide Step;
    StatusPublishes(w, e, f);
    Returns(Step(w, EmitPublish(e)), e, f);
    FinishShows(Step(w, EmitPublish(e)), e, f, Emitted(w.emits[e].pc.commit.at));
  }

  lemma PublishedArtifact(w: World, e: Id, f: Id)
    requires e in w.emits && w.emits[e].sink == f && w.emits[e].pc.Committed? && w.emits[e].op.EmitArtifact? && f in w.sinks
    ensures Shows(Complete(w, e), e, f,
                  Section(w.store, w.sinks[f].(lock := None), w.dispatches, Emitted(w.emits[e].pc.commit.at)))
  {
    hide Step;
    ArtifactPublishes(w, e, f);
    Returns(Step(w, EmitPublish(e)), e, f);
    FinishShows(Step(w, EmitPublish(e)), e, f, Emitted(w.emits[e].pc.commit.at));
  }

  /** A failing storage call ends the call and changes nothing. */
  lemma FailedCall(w: World, e: Id, f: Id)
    requires e in w.emits && w.emits[e].sink == f && f in w.sinks && w.sinks[f].lock == Some(e)
    requires w.emits[e].pc.Holding? || w.emits[e].pc.HasRead?
    ensures Shows(Step(w, EmitFail(e)), e, f,
                  Section(w.store, w.sinks[f].(lock := None), w.dispatches, StoreRefused(Backend)))
  {
    assert Step(w, EmitFail(e)) == Finish(w, e, StoreRefused(Backend));
    hide Step;
    FinishShows(w, e, f, StoreRefused(Backend));
  }

  // The write of a call: accepted or refused by the store, or failed.
  function WriteStep(e: Id, fault: Fault): Label {
    if fault.WriteFails? then EmitFail(e) else EmitCommit(e)
  }

  /** The section that the imperative status commit is verified against is what the
      protocol's steps do: lock, write, publish, return. */
  lemma StatusSectionIsARun(w: World, e: Id, f: Id, fault: Fault)
    requires Calls(w, e, f) && w.emits[e].op.EmitStatus? && !fault.ReadFails?
    ensures Shows(Complete(Step(Step(w, EmitLock(e)), WriteStep(e, fault)), e), e, f,
                  StatusSection(w.store, w.sinks[f], w.dispatches, e, w.emits[e].op.status, fault))
  {
    hide Step;
    if w.sinks[f].isClosed {
      ClosedCall(w, e, f, fault);
    } else {
      Locked(w, e, f);
      var w1 := Step(w, EmitLock(e));
      if fault.WriteFails? {
        FailedCall(w1, e, f);
        NothingToPublish(Step(w1, EmitFail(e)), e);
      } else {
        match EmitWrite(w1.store, w1.emits[e], e)
        case Ok(x) =>
          Accepted(w1, e, x);
          PublishedStatus(Step(w1, EmitCommit(e)), e, f);
        case Err(_) => RefusedCommit(w1, e, f);
      }
    }
  }

  lemma ClosedCall(w: World, e: Id, f: Id, fault: Fault)
    requires Calls(w, e, f) && w.sinks[f].isClosed
    ensures Shows(Complete(Step(Step(w, EmitLock(e)), WriteStep(e, fault)), e), e, f,
                  Section(w.store, w.sinks[f], w.dispatches, SinkClosed))
  {
    var w1 := Step(w, EmitLock(e));
    assert w1 == SetEmit(w, e, Finished(SinkClosed));
    assert Step(w1, WriteStep(e, fault)) == w1;
    NothingToPublish(w1, e);
  }

  /** A status emitted on a sink whose lock is free, with no step of another in between. On an
      open sink it lands if its state can be reached from the stored one and the write does not
      fail: the row has the status, the log ends with it, it is dispatched without its message,
      a terminal closes the sink, and it answers the waiting send unless that has its answer.
      Otherwise nothing is written, and the sink is closed if the task is over. */
  lemma StatusEmitExactly(w: World, e: Id, f: Id, fails: bool)
    requires Calls(w, e, f) && w.emits[e].op.EmitStatus?
    ensures var w' := Complete(Step(Step(w, EmitLock(e)), if fails then EmitFail(e) else EmitCommit(e)), e);
            var status, at, k := w.emits[e].op.status, |w.store.log| + 1, w.sinks[f];
            && e in w'.emits && f in w'.sinks && w'.sinks[f].lock.None?
            && if !k.isClosed && !fails && w.store.task.Some? && LeadsTo(w.store.task.value.status.state, status.state)
               then
                 var t := Task(status, w.store.task.value.artifacts, w.store.task.value.history);
                 var over, held := Over(status.state), status.state in {InputRequired, AuthRequired};
                 && w'.store == Store(Some(t), w.store.log + [Entry(StatusUpdate(status), ByEmit(e))],
                                      w.store.cancelRequested, w.store.lease)
                 && w'.emits[e].pc == Finished(Emitted(at))
                 && w'.sinks[f] == Sink(k.origin, k.live, over, held, None,
                                        if k.yielded.None? && (over || held) then Some(Commit(at, t)) else k.yielded,
                                        k.dropped)
                 && w'.dispatches == w.dispatches + [Dispatch(at, StatusUpdate(Status(status.state, None)), t, ByEmit(e))]
               else
                 && w'.store == w.store && w'.dispatches == w.dispatches
                 && RefusedWith(w', e, f, k, w.store.task, InvalidMove(Stored(w), status.state), fails)
  {
    hide Step, Complete, ValidateTransition, LeadsTo;
    StatusSectionIsARun(w, e, f, if fails then WriteFails else NoFault);
    StatusAcceptedExactly(w.store, w.emits[e].op.status, ByEmit(e));
  }

  predicate Over(s: TaskState) {
    s in {Completed, TaskState.Failed, Canceled, Rejected}
  }

  function Stored(w: World): TaskState {
    if w.store.task.Some? then w.store.task.value.status.state else Submitted
  }

  // The call on a sink that was as k has ended without a write: refused by a closed sink, by a
  // failing storage call, for want of a task, by a terminal, or with this error.
  ghost predicate RefusedWith(w: World, e: Id, f: Id, k: Sink, task: Option<Task>, otherwise: StoreError, fails: bool) {
    && e in w.emits && f in w.sinks
    && var over := k.isClosed || (!fails && task.Some? && Over(task.value.status.state));
       && w.sinks[f] == k.(isClosed := over, lock := None)
       && w.emits[e].pc == Finished(
            if over then SinkClosed
            else StoreRefused(if fails then Backend else if task.None? then TaskNotFound else otherwise))
  }

  // Emit e is in the lock of sink f.
  ghost predicate Inside(w: World, e: Id, f: Id) {
    && e in w.emits && w.emits[e].sink == f && InLock(w.emits[e].pc)
    && f in w.sinks && w.sinks[f].lock == Some(e) && w.sinks[f].live
  }

  // The schedule has no step of emit e.
  predicate ByOtherCalls(ls: seq<Label>, e: Id) {
    forall i | 0 <= i < |ls| :: IsEmitLabel(ls[i]) ==> ls[i].e != e
  }

  lemma OtherEmitStays(w: World, l: Label, e: Id, f: Id)
    requires EmitInv(w) && Inside(w, e, f) && IsEmitLabel(l) && l.e != e
    ensures var w' := StepEmit(w, l);
            e in w'.emits && w'.emits[e] == w.emits[e] && f in w'.sinks && w'.sinks[f] == w.sinks[f]
  {
    if !l.EmitCall? && StepEmit(w, l) != w {
      EmitIsLocal(w, l);
      if w.emits[l.e].sink == f {
        assert EmitOk(w, l.e);
      }
    }
  }

  lemma OtherStepStays(w: World, l: Label, e: Id, f: Id)
    requires EmitInv(w) && Inside(w, e, f) && (IsEmitLabel(l) ==> l.e != e)
    ensures var w' := Step(w, l);
            e in w'.emits && w'.emits[e] == w.emits[e] && f in w'.sinks && w'.sinks[f] == w.sinks[f]
  {
    if IsSendLabel(l) {
      SendTouchesNoEmit(w, l);
      SendTouchesSinks(w, l);
      NobodyLeaves(w, l, e, f);
    } else if IsEmitLabel(l) {
      OtherEmitStays(w, l, e, f);
    } else {
      OtherTouches(w, l);
    }
  }

  // A sink does not end while one of its calls is under way.
  lemma NobodyLeaves(w: World, l: Label, e: Id, f: Id)
    requires Inside(w, e, f) && IsSendLabel(l)
    ensures f in StepSend(w, l).sinks && StepSend(w, l).sinks[f] == w.sinks[f]
  {
    if !l.SendSpawn? && !l.JobSpawn? && !l.SinkExit? && !l.SenderDrop? {
      OnlySpawnsAndExitsTouchSinks(w, l);
    }
  }

  /** Whatever the others do, a call that is in its sink's lock stays where it is, and its
      sink as it is. */
  lemma {:induction false} OthersRun(w: World, ls: seq<Label>, e: Id, f: Id)
    requires Inv(w) && Inside(w, e, f) && ByOtherCalls(ls, e)
    ensures var w' := Run(w, ls);
            Inv(w') && e in w'.emits && w'.emits[e] == w.emits[e] && f in w'.sinks && w'.sinks[f] == w.sinks[f]
  {
    if ls != [] {
      hide Step, Inv;
      var before, l := Run(w, ls[..|ls| - 1]), ls[|ls| - 1];
      OthersRun(w, ls[..|ls| - 1], e, f);
      StepKeepsInv(before, l);
      assert EmitInv(before) by { InvHoldsForEmits(before); }
      OtherStepStays(before, l, e, f);
    }
  }

  lemma InvHoldsForEmits(w: World)
    requires Inv(w)
    ensures EmitInv(w)
  {
  }

  lemma ReadStep(w: World, e: Id)
    requires e in w.emits && w.emits[e].pc.Holding? && w.emits[e].op.EmitArtifact? && w.emits[e].sink in w.sinks
    requires w.store.task.Some?
    ensures Step(w, EmitRead(e)) == SetEmit(w, e, HasRead(w.store.task.value))
  {
  }

  // The steps of an artifact call that ends before its write: on a closed sink, with a read
  // that fails, or without a task.
  function EndedEarly(w: World, e: Id, f: Id, fault: Fault): World
    requires f in w.sinks
  {
    var locked := Step(w, EmitLock(e));
    if w.sinks[f].isClosed then locked
    else if fault.ReadFails? then Step(locked, EmitFail(e))
    else Step(locked, EmitRead(e))
  }

  /** A section that ends early is what these steps do; what the others make of the store
      afterwards does not matter to it. */
  lemma EarlyEndIsARun(w: World, now: Store, e: Id, f: Id, fault: Fault)
    requires Calls(w, e, f) && w.emits[e].op.EmitArtifact?
    requires w.sinks[f].isClosed || fault.ReadFails? || w.store.task.None?
    ensures Shows(EndedEarly(w, e, f, fault), e, f,
                  ArtifactSection(w.store, now, w.sinks[f], w.dispatches, e, w.emits[e].op, fault))
  {
    if w.sinks[f].isClosed {
      assert Step(w, EmitLock(e)) == SetEmit(w, e, Finished(SinkClosed));
    } else {
      Locked(w, e, f);
      var w1 := Step(w, EmitLock(e));
      hide Finish;
      if fault.ReadFails? {
        FailedCall(w1, e, f);
      } else {
        assert Step(w1, EmitRead(e)) == Finish(w1, e, StoreRefused(TaskNotFound));
        FinishShows(w1, e, f, StoreRefused(TaskNotFound));
      }
    }
  }

  /** It writes nothing, and leaves the sink as it was. */
  lemma ArtifactEndsEarly(w: World, e: Id, f: Id, fails: bool)
    requires Calls(w, e, f) && w.emits[e].op.EmitArtifact?
    requires w.sinks[f].isClosed || fails || w.store.task.None?
    ensures var w' := EndedEarly(w, e, f, if fails then ReadFails else NoFault);
            && w'.store == w.store && w'.dispatches == w.dispatches
            && RefusedWith(w', e, f, w.sinks[f], None, Backend, fails)
  {
    hide EndedEarly;
    EarlyEndIsARun(w, w.store, e, f, if fails then ReadFails else NoFault);
  }

  /** The section that the imperative artifact commit is verified against is what the
      protocol's steps do: lock, read, any steps of any others, write, publish, return. */
  lemma ArtifactSectionIsARun(w: World, e: Id, f: Id, others: seq<Label>, fault: Fault)
    requires Inv(w) && Calls(w, e, f) && w.emits[e].op.EmitArtifact? && ByOtherCalls(others, e)
    requires !w.sinks[f].isClosed && w.store.task.Some? && !fault.ReadFails?
    ensures var held := Run(Step(Step(w, EmitLock(e)), EmitRead(e)), others);
            Shows(Complete(Step(held, WriteStep(e, fault)), e), e, f,
                  ArtifactSection(w.store, held.store, w.sinks[f], held.dispatches, e, w.emits[e].op, fault))
  {
    hide Run, Step, Inv;
    Locked(w, e, f);
    StepKeepsInv(w, EmitLock(e));
    var w1 := Step(w, EmitLock(e));
    ReadStep(w1, e);
    StepKeepsInv(w1, EmitRead(e));
    var w2 := Step(w1, EmitRead(e));
    OthersRun(w2, others, e, f);
    var w3 := Run(w2, others);
    if fault.WriteFails? {
      FailedCall(w3, e, f);
      NothingToPublish(Step(w3, EmitFail(e)), e);
    } else {
      match EmitWrite(w3.store, w3.emits[e], e)
      case Ok(x) =>
        Accepted(w3, e, x);
        PublishedArtifact(Step(w3, EmitCommit(e)), e, f);
      case Err(_) => RefusedCommit(w3, e, f);
    }
  }

  /** An artifact emitted on an open sink whose lock is free, with any steps of any others
      between its read and its write. Unless the write fails or the task is over by then, the
      row is the task as it was read, with the artifact merged in, whatever the others have made
      of it, and the log grows by the artifact with both its flags. Nothing is dispatched, and
      the sink is as it was. */
  lemma ArtifactEmitExactly(w: World, e: Id, f: Id, others: seq<Label>, fails: bool)
    requires Inv(w) && Calls(w, e, f) && w.emits[e].op.EmitArtifact? && ByOtherCalls(others, e)
    requires !w.sinks[f].isClosed && w.store.task.Some?
    ensures var held := Run(Step(Step(w, EmitLock(e)), EmitRead(e)), others);
            var w' := Complete(Step(held, if fails then EmitFail(e) else EmitCommit(e)), e);
            var op, t, k := w.emits[e].op, w.store.task.value, w.sinks[f];
            && held.store.task.Some? && w'.dispatches == held.dispatches
            && if !fails && !Over(held.store.task.value.status.state)
               then
                 && w'.store == Store(Some(t.(artifacts := MergeArtifact(t.artifacts, op.artifact, op.append))),
                                      held.store.log
                                        + [Entry(ArtifactUpdate(op.artifact, op.append, op.lastChunk), ByEmit(e))],
                                      held.store.cancelRequested, held.store.lease)
                 && e in w'.emits && w'.emits[e].pc == Finished(Emitted(|held.store.log| + 1))
                 && f in w'.sinks && w'.sinks[f] == k
               else w'.store == held.store && RefusedWith(w', e, f, k, held.store.task, Backend, fails)
  {
    hide Run, Step, Complete, MergeArtifact, Inv;
    ArtifactSectionIsARun(w, e, f, others, if fails then WriteFails else NoFault);
    ReadRunsOn(w, e, f, others);
  }

  lemma ReadRunsOn(w: World, e: Id, f: Id, others: seq<Label>)
    requires Inv(w) && Calls(w, e, f) && w.emits[e].op.EmitArtifact? && !w.sinks[f].isClosed && w.store.task.Some?
    ensures Run(Step(Step(w, EmitLock(e)), EmitRead(e)), others).store.task.Some?
  {
    hide Run, Step, Inv;
    Locked(w, e, f);
    StepKeepsInv(w, EmitLock(e));
    ReadStep(Step(w, EmitLock(e)), e);
    StepKeepsInv(Step(w, EmitLock(e)), EmitRead(e));
    TaskStays(Step(Step(w, EmitLock(e)), EmitRead(e)), others);
  }

  lemma {:induction false} TaskStays(w: World, ls: seq<Label>)
    requires Inv(w) && w.store.task.Some?
    ensures Inv(Run(w, ls)) && Run(w, ls).store.task.Some?
  {
    if ls != [] {
      hide Step, Inv;
      TaskStays(w, ls[..|ls| - 1]);
      StepKeepsInv(Run(w, ls[..|ls| - 1]), ls[|ls| - 1]);
    }
  }
}
