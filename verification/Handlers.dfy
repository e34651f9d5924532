// The server that request handlers run against, the framework's own terminal writes, and
// CancelTask's grace loop. At every await any other parties may take any number of steps and
// any time may pass.
module Handlers {
  import opened Wrappers
  import opened Lifecycle
  import opened TaskLog
  import opened AtomicStore
  import opened Protocol
  import opened Footprints
  import opened Safety
  import opened Records
  import opened Commits
  import opened Theorems

  // ---- Who may do what meanwhile ----

  // The ids that one request has to itself: nobody else steps its framework writer or its
  // send, or spawns its sink. The request also keeps the handle of its sink, and with it
  // the sender of `yielded`.
  datatype Me = Me(writer: Id, send: Id, sink: Id)

  predicate Touches(l: Label, me: Me) {
    match l
    case WriterStart(h, _) => h == me.writer
    case WriterCommit(h) => h == me.writer
    case WriterDispatch(h) => h == me.writer
    case WriterReread(h) => h == me.writer
    case WriterFail(h) => h == me.writer
    case SendResolve(s, _, _, _) => s == me.send
    case SendRecord(s) => s == me.send
    case SendLease(s, _) => s == me.send
    case SendStart(s) => s == me.send
    case SendEnqueue(s) => s == me.send
    case SendFail(s) => s == me.send
    case SendCompensate(s, h, _) => s == me.send || h == me.writer
    case SendSpawn(s, f) => s == me.send || f == me.sink
    case JobSpawn(_, f) => f == me.sink
    case SenderDrop(f) => f == me.sink
    case MarkCancel(h) => h == me.writer
    case _ => false
  }

  predicate ByOthers(ls: seq<Label>, me: Me) {
    forall i | 0 <= i < |ls| :: !Touches(ls[i], me)
  }

  ghost predicate SameAt<T>(m: map<Id, T>, m': map<Id, T>, k: Id) {
    (k in m <==> k in m') && (k in m ==> m'[k] == m[k])
  }

  ghost predicate Untouched(w: World, w': World, me: Me) {
    && SameAt(w.writers, w'.writers, me.writer)
    && SameAt(w.sends, w'.sends, me.send)
    && (me.sink in w.sinks <==> me.sink in w'.sinks)
    && (me.sink in w.sinks ==>
          && w'.sinks[me.sink].origin == w.sinks[me.sink].origin
          && w'.sinks[me.sink].dropped == w.sinks[me.sink].dropped)
  }

  lemma SendByAnother(w: World, l: Label, me: Me)
    requires IsSendLabel(l) && !Touches(l, me)
    ensures SameAt(w.sends, StepSend(w, l).sends, me.send)
  {
    OneSendMoves(w, l);
  }

  lemma CompensationByAnother(w: World, l: Label, me: Me)
    requires IsSendLabel(l) && !Touches(l, me)
    ensures SameAt(w.writers, StepSend(w, l).writers, me.writer)
  {
    hide StepRecord, StepStart, ResolveTarget, WriteLease;
    if l.SendRecord? && l.s in w.sends {
      RecordTouchesStoreAndSend(w, l.s);
    } else if l.SendStart? && l.s in w.sends {
      StartTouchesStoreAndSend(w, l.s);
    }
  }

  lemma SpawnByAnother(w: World, l: Label, me: Me)
    requires IsSendLabel(l) && !Touches(l, me)
    ensures me.sink in w.sinks <==> me.sink in StepSend(w, l).sinks
    ensures me.sink in w.sinks ==> StepSend(w, l).sinks[me.sink].dropped == w.sinks[me.sink].dropped
  {
    if !l.SendSpawn? && !l.JobSpawn? && !l.SinkExit? && !l.SenderDrop? {
      OnlySpawnsAndExitsTouchSinks(w, l);
    }
  }

  lemma OneWriterMoves(w: World, h: Id, other: Id)
    requires h in w.writers && h != other
    ensures SameAt(w.writers, StepWriterCommit(w, h).writers, other)
    ensures SameAt(w.writers, StepWriterReread(w, h).writers, other)
    ensures w.writers[h].pc.Won? ==> SameAt(w.writers, StepWriterDispatch(w, h).writers, other)
  {
    hide UpdateTaskStatusWithEvents;
  }

  lemma WriteByAnother(w: World, l: Label, me: Me)
    requires !IsSendLabel(l) && !IsEmitLabel(l) && !Touches(l, me)
    ensures SameAt(w.writers, StepOther(w, l).writers, me.writer)
  {
    hide StepWriterCommit, StepWriterReread, StepWriterDispatch, SetCancelRequested, WriteLease, StepSnapshot, StepPoll;
    if (l.WriterCommit? || l.WriterReread? || l.WriterDispatch?) && l.h in w.writers {
      OneWriterMoves(w, l.h, me.writer);
    }
  }

  lemma EmitByAnother(w: World, l: Label, me: Me)
    requires IsEmitLabel(l)
    ensures Untouched(w, StepEmit(w, l), me)
  {
    if !l.EmitCall? && StepEmit(w, l) != w {
      EmitIsLocal(w, l);
      hide StepEmit;
    }
  }

  lemma StepByAnother(w: World, l: Label, me: Me)
    requires !Touches(l, me)
    ensures Untouched(w, Step(w, l), me)
  {
    hide StepSend, StepEmit, StepOther, Touches;
    if IsSendLabel(l) {
      SendByAnother(w, l, me);
      CompensationByAnother(w, l, me);
      SpawnByAnother(w, l, me);
      SendTouchesSinks(w, l);
    } else if IsEmitLabel(l) {
      EmitByAnother(w, l, me);
    } else {
      OtherTouches(w, l);
      WriteByAnother(w, l, me);
    }
  }

  lemma {:induction false} RunByOthers(w: World, ls: seq<Label>, me: Me)
    requires ByOthers(ls, me)
    ensures Untouched(w, Run(w, ls), me)
  {
    if ls != [] {
      RunByOthers(w, ls[..|ls| - 1], me);
      StepByAnother(Run(w, ls[..|ls| - 1]), ls[|ls| - 1], me);
    }
  }

  /** A framework writer that has not won has no entry in the log. */
  lemma NotWonNotLogged(w: World, h: Id)
    requires RecordsInv(w) && (h in w.writers ==> !w.writers[h].pc.Won? && !w.writers[h].pc.Answered?)
    ensures forall i | 0 <= i < |w.store.log| :: w.store.log[i].author != ByWriter(h)
  {
    forall i | 0 <= i < |w.store.log| ensures w.store.log[i].author != ByWriter(h) {
      assert AuthorOk(w, w.store.log[i].author);
    }
  }

  ghost predicate NotBy(st: Store, h: Id) {
    forall i | 0 <= i < |st.log| :: st.log[i].author != ByWriter(h)
  }

  /** The log ends in this status, committed by h, and t is the task's one terminal. */
  ghost predicate WonBy(st: Store, status: Status, h: Id, t: Task) {
    && st.log != [] && st.log[|st.log| - 1] == Entry(StatusUpdate(status), ByWriter(h))
    && IsTheTerminal(st, t) && t.status == status
  }

  /** What a framework writer knows once its compare-and-set has answered. */
  ghost predicate Outcome(w: World, h: Id)
    requires h in w.writers
  {
    match w.writers[h].pc
    case Ready => false
    case Won(c) => WonBy(w.store, w.writers[h].status, h, c.task)
    case Lost => Terminal(w.store) && NotBy(w.store, h)
    case Answered(t) => IsTheTerminal(w.store, t)
    case GaveUp(_) => NotBy(w.store, h)
  }

  lemma CommitAnswers(w: World, h: Id)
    requires h in w.writers && w.writers[h].pc.Ready?
    ensures var w', r := Step(w, WriterCommit(h)), UpdateTaskStatusWithEvents(w.store, w.writers[h].status, ByWriter(h));
            && h in w'.writers && w'.writers[h].status == w.writers[h].status && w'.sinks == w.sinks
            && w'.writers[h].pc == match r
               case Ok(x) => Won(x.commit)
               case Err(e) => if e.TerminalStateAlreadySet? then Lost else GaveUp(e)
  {
  }

  lemma WriterCommitOutcome(w: World, w': World, h: Id)
    requires h in w.writers && w.writers[h].pc.Ready? && w' == Step(w, WriterCommit(h)) && RecordsInv(w')
    requires w.writers[h].status.state.Failed? || w.writers[h].status.state.Canceled?
    ensures h in w'.writers && w'.writers[h].status == w.writers[h].status && w'.sinks == w.sinks
    ensures Outcome(w', h) && !w'.writers[h].pc.Answered?
    ensures w'.writers[h].pc.GaveUp? ==>
              w'.writers[h].pc.error == TaskNotFound && w.store.task.None? && w'.store.task.None?
  {
    CommitAnswers(w, h);
    FrameworkTerminalFailsOnlyByRace(w.store, w.writers[h].status, ByWriter(h));
    assert WriterOk(w', h);
    if w'.writers[h].pc.Won? {
      WinnerIsLast(w', h);
    } else {
      NotWonNotLogged(w', h);
    }
  }

  lemma WinnerIsLast(w: World, h: Id)
    requires Inv(w) && h in w.writers && w.writers[h].pc.Won?
    ensures WonBy(w.store, w.writers[h].status, h, w.writers[h].pc.commit.task)
  {
    assert WriterOk(w, h);
    TerminalEntry(w.store, w.writers[h].pc.commit.at);
  }

  /** What a handler that forced a terminal hands back: the task's one terminal. */
  ghost predicate Answer(w: World, h: Id, t: Task) {
    h in w.writers && w.writers[h].pc == Answered(t) && IsTheTerminal(w.store, t)
  }

  // Which storage calls of a forced terminal fail, if they are made: its commit, and the
  // re-read after a lost race.
  datatype WriteFaults = WriteFaults(commit: bool, reread: bool)

  // At moment n of the schedule writer h has lost its compare-and-set to a terminal.
  ghost predicate LostAt(schedule: seq<Label>, h: Id, n: nat) {
    n <= |schedule| && h in Run(START, schedule[..n]).writers && Run(START, schedule[..n]).writers[h].pc.Lost?
  }

  ghost predicate LostRace(schedule: seq<Label>, h: Id) {
    exists n: nat :: LostAt(schedule, h, n)
  }

  /** A forced terminal comes to nothing exactly if its commit fails, or loses its race and
      then cannot be re-read. */
  ghost predicate WriteFails(schedule: seq<Label>, h: Id, faults: WriteFaults) {
    faults.commit || (LostRace(schedule, h) && faults.reread)
  }

  lemma LostNow(schedule: seq<Label>, h: Id)
    requires h in Run(START, schedule).writers && Run(START, schedule).writers[h].pc.Lost?
    ensures LostRace(schedule, h)
  {
    hide Run;
    assert schedule[..|schedule|] == schedule;
    assert LostAt(schedule, h, |schedule|);
  }

  lemma StaysLost(before: seq<Label>, after: seq<Label>, h: Id)
    requires before <= after && LostRace(before, h)
    ensures LostRace(after, h)
  {
    hide Run;
    var n: nat :| LostAt(before, h, n);
    assert after[..n] == before[..n];
    assert LostAt(after, h, n);
  }

  /** Who has lost has no entry, and the task is terminal. */
  lemma LostToTheTerminal(schedule: seq<Label>, h: Id)
    requires LostRace(schedule, h)
    ensures Terminal(Run(START, schedule).store) && NotBy(Run(START, schedule).store, h)
  {
    hide Run, RecordsInv;
    var n: nat :| LostAt(schedule, h, n);
    var w := Run(START, schedule[..n]);
    ReachableInv(schedule[..n]);
    assert Terminal(w.store) by { LoserSeesTheTerminal(w, h); }
    NotWonNotLogged(w, h);
    RowsGrow(schedule, n);
  }

  lemma LoserSeesTheTerminal(w: World, h: Id)
    requires RecordsInv(w) && h in w.writers && w.writers[h].pc.Lost?
    ensures Terminal(w.store)
  {
    assert WriterOk(w, h);
  }

  /** This request has set its cancel marker, at step n or later. */
  ghost predicate MarkedSince(schedule: seq<Label>, n: nat, h: Id) {
    exists i: nat :: n <= i < |schedule| && schedule[i] == MarkCancel(h)
  }

  // The request has taken no step since n.
  ghost predicate IdleSince(schedule: seq<Label>, n: nat, me: Me) {
    forall i: nat | n <= i < |schedule| :: !Touches(schedule[i], me)
  }

  lemma IdleNotMarked(schedule: seq<Label>, n: nat, me: Me)
    requires IdleSince(schedule, n, me)
    ensures !MarkedSince(schedule, n, me.writer)
  {
  }

  datatype CancelError = NoSuchTask | NotCancelable | StorageFailed

  // Which storage calls of CancelTask fail, besides the polls: the first read, the marker, and
  // those of the forced write.
  datatype CancelFaults = CancelFaults(read: bool, mark: bool, write: WriteFaults)

  function CancelErrorOf(e: StoreError): CancelError {
    match e
    case TaskNotFound => NoSuchTask
    case InvalidMove(_, _) => NotCancelable
    case TerminalStateAlreadySet(_) => NotCancelable
    case Backend => StorageFailed
  }

  lemma OneMoreStep(ls: seq<Label>, l: Label)
    ensures Run(START, ls + [l]) == Step(Run(START, ls), l)
    ensures Grows(Run(START, ls).store, Run(START, ls + [l]).store)
  {
    hide Step;
    assert (ls + [l])[..|ls|] == ls;
    LaterState(ls, [l]);
  }

  // ---- The server ----

  class Server {
    var world: World
    var now: int
    // The steps so far, and when each was taken.
    ghost var schedule: seq<Label>
    ghost var times: seq<int>

    constructor ()
      ensures Valid() && world == START && now == 0
    {
      world, now, schedule, times := START, 0, [], [];
    }

    /** The world is what some schedule from the start leads to. */
    ghost predicate Valid()
      reads this
    {
      world == Run(START, schedule) && |times| == |schedule|
    }

    /** Steps and time have been added to the old state, and nothing taken back. */
    twostate predicate Later()
      reads this
    {
      && Valid() && old(schedule) <= schedule && old(times) <= times && old(now) <= now
      && Grows(old(world.store), world.store)
    }

    /** The first step since is the start of the request's own write of this status, at once. */
    twostate predicate BeginsWrite(me: Me, status: Status)
      reads this
    {
      && old(schedule) + [WriterStart(me.writer, status)] <= schedule
      && old(times) + [old(now)] <= times
    }

    method Take(l: Label)
      requires Valid()
      modifies this
      ensures Later() && now == old(now) && world == Step(old(world), l)
      ensures schedule == old(schedule) + [l] && times == old(times) + [now]
    {
      hide Run, Step, Grows;
      OneMoreStep(schedule, l);
      world := Step(world, l);
      schedule, times := schedule + [l], times + [now];
    }

    /** Others run, and time passes. */
    method Await(me: Me)
      requires Valid()
      modifies this
      ensures Later() && Untouched(old(world), world, me)
      ensures IdleSince(schedule, |old(schedule)|, me)
    {
      var others: seq<Label> := *;
      if !ByOthers(others, me) {
        others := [];
      }
      hide Touches;
      RunByOthers(world, others, me);
      LaterState(schedule, others);
      var time: int := *;
      ghost var meanwhile := now;
      schedule, times := schedule + others, times + seq(|others|, _ => meanwhile);
      world, now := Run(world, others), if time < now then now else time;
    }

    /** Time passes, and nobody runs. */
    method Pass(time: int)
      requires Valid() && now <= time
      modifies this
      ensures Later() && now == time && schedule == old(schedule) && times == old(times) && world == old(world)
    {
      now := time;
    }

    /** Time passes at least this long. */
    method Sleep(me: Me, pause: nat)
      requires Valid()
      modifies this
      ensures Later() && Untouched(old(world), world, me) && now >= old(now) + pause
    {
      now := now + pause;
      Await(me);
    }

    method ReadTask(me: Me, fails: bool) returns (r: Result<Option<Task>, StoreError>)
      requires Valid()
      modifies this
      ensures Later() && Untouched(old(world), world, me)
      ensures IdleSince(schedule, |old(schedule)|, me)
      ensures r == if fails then Err(Backend) else Ok(world.store.task)
    {
      Await(me);
      return if fails then Err(Backend) else Ok(world.store.task);
    }

    // ---- The framework's own writes ----

    method BeginWrite(me: Me, status: Status)
      requires Valid() && me.writer !in world.writers && IsTerminal(status.state)
      modifies this
      ensures Later() && me.writer in world.writers && world.writers[me.writer] == Writer(status, Ready)
      ensures me.sink in world.sinks <==> me.sink in old(world.sinks)
      ensures BeginsWrite(me, status)
    {
      Take(WriterStart(me.writer, status));
    }

    method AbandonWrite(me: Me)
      requires Valid() && me.writer in world.writers
      requires world.writers[me.writer].pc.Ready? || world.writers[me.writer].pc.Lost?
      modifies this
      ensures Later() && me.writer in world.writers && NotBy(world.store, me.writer)
      ensures me.sink in world.sinks <==> me.sink in old(world.sinks)
      ensures world.writers[me.writer] == Writer(old(world.writers[me.writer].status), GaveUp(Backend))
    {
      Take(WriterFail(me.writer));
      ReachableInv(schedule);
      NotWonNotLogged(world, me.writer);
    }

    /** The compare-and-set of the store. */
    method TryWrite(me: Me)
      requires Valid() && me.writer in world.writers && world.writers[me.writer].pc.Ready?
      requires world.writers[me.writer].status.state.Failed? || world.writers[me.writer].status.state.Canceled?
      modifies this
      ensures Later() && me.writer in world.writers
      ensures me.sink in world.sinks <==> me.sink in old(world.sinks)
      ensures world.writers[me.writer].status == old(world.writers[me.writer].status)
      ensures Outcome(world, me.writer) && !world.writers[me.writer].pc.Answered?
      ensures world.writers[me.writer].pc.GaveUp? ==>
                world.writers[me.writer].pc.error == TaskNotFound && old(world.store.task).None? && world.store.task.None?
    {
      hide Run, Step;
      ghost var before := world;
      Take(WriterCommit(me.writer));
      ReachableInv(schedule);
      WriterCommitOutcome(before, world, me.writer);
    }

    method Dispatch(me: Me) returns (t: Task)
      requires Valid() && me.writer in world.writers && world.writers[me.writer].pc.Won?
      requires Outcome(world, me.writer)
      modifies this
      ensures Later() && me.writer in world.writers
      ensures me.sink in world.sinks <==> me.sink in old(world.sinks)
      ensures world.writers[me.writer] == Writer(old(world.writers[me.writer].status), Answered(t))
      ensures WonBy(world.store, world.writers[me.writer].status, me.writer, t)
    {
      t := world.writers[me.writer].pc.commit.task;
      Take(WriterDispatch(me.writer));
    }

    /** Ok exactly if this writer's compare-and-set won: then its status is the last entry
        of the log, and what it returns is the task's one terminal. */
    method FinishWrite(me: Me, fails: bool) returns (r: Result<Task, StoreError>)
      requires Valid() && me.writer in world.writers && world.writers[me.writer].pc.Ready?
      requires world.writers[me.writer].status.state.Failed? || world.writers[me.writer].status.state.Canceled?
      modifies this
      ensures Later() && me.writer in world.writers
      ensures me.sink in world.sinks <==> me.sink in old(world.sinks)
      ensures world.writers[me.writer].status == old(world.writers[me.writer].status)
      ensures match r
              case Ok(t) =>
                world.writers[me.writer].pc == Answered(t) && WonBy(world.store, world.writers[me.writer].status, me.writer, t)
              case Err(e) =>
                if e.TerminalStateAlreadySet? then world.writers[me.writer].pc.Lost? && Terminal(world.store)
                else
                  && world.writers[me.writer].pc == GaveUp(e) && NotBy(world.store, me.writer)
                  && (e == Backend || (e == TaskNotFound && old(world.store.task).None? && world.store.task.None?))
      ensures r == Err(Backend) <==> fails
    {
      Await(me);
      if fails {
        AbandonWrite(me);
        return Err(Backend);
      }
      TryWrite(me);
      match world.writers[me.writer].pc {
        case Won(_) =>
          var t := Dispatch(me);
          return Ok(t);
        case Lost => return Err(TerminalStateAlreadySet(world.store.task.value.status.state));
        case GaveUp(e) => return Err(e);
      }
    }

    method CommitFrameworkTerminal(me: Me, status: Status, fails: bool) returns (r: Result<Task, StoreError>)
      requires Valid() && me.writer !in world.writers
      requires status.state.Failed? || status.state.Canceled?
      modifies this
      ensures Later() && me.writer in world.writers && world.writers[me.writer].status == status
      ensures me.sink in world.sinks <==> me.sink in old(world.sinks)
      ensures match r
              case Ok(t) => world.writers[me.writer].pc == Answered(t) && WonBy(world.store, status, me.writer, t)
              case Err(e) =>
                if e.TerminalStateAlreadySet? then world.writers[me.writer].pc.Lost? && Terminal(world.store)
                else
                  && world.writers[me.writer].pc == GaveUp(e) && NotBy(world.store, me.writer)
                  && (e == Backend || (e == TaskNotFound && old(world.store.task).None? && world.store.task.None?))
      ensures r == Err(Backend) <==> fails
      ensures BeginsWrite(me, status)
    {
      BeginWrite(me, status);
      r := FinishWrite(me, fails);
    }

    /** The re-read by a writer that lost: what is stored then is the terminal that won. */
    method Reread(me: Me, fails: bool) returns (r: Result<Task, StoreError>)
      requires Valid() && me.writer in world.writers && world.writers[me.writer].pc.Lost?
      modifies this
      ensures Later() && me.writer in world.writers && NotBy(world.store, me.writer)
      ensures match r
              case Ok(t) => world.writers[me.writer].pc == Answered(t) && IsTheTerminal(world.store, t)
              case Err(e) => e == Backend && world.writers[me.writer].pc == GaveUp(Backend)
      ensures r.Err? <==> fails
    {
      Await(me);
      if fails {
        AbandonWrite(me);
        return Err(Backend);
      }
      ReachableInv(schedule);
      assert WriterOk(world, me.writer);
      NotWonNotLogged(world, me.writer);
      Take(WriterReread(me.writer));
      return Ok(world.store.task.value);
    }

    /** The commit of a forced terminal, and the re-read when it lost. `won` says which. It
        fails exactly if a call of it fails, or the task was missing. */
    method ForceTerminal(me: Me, status: Status, faults: WriteFaults)
      returns (r: Result<Task, StoreError>, won: bool)
      requires Valid() && me.writer !in world.writers
      requires status.state.Failed? || status.state.Canceled?
      modifies this
      ensures Later() && me.writer in world.writers
      ensures BeginsWrite(me, status)
      ensures match r
              case Ok(t) => Answer(world, me.writer, t)
              case Err(e) =>
                && world.writers[me.writer].pc == GaveUp(e)
                && (e == Backend || (e == TaskNotFound && old(world.store.task).None?))
      ensures r == Err(Backend) <==> WriteFails(schedule, me.writer, faults)
      ensures if won then r.Ok? && WonBy(world.store, status, me.writer, r.value) else NotBy(world.store, me.writer)
    {
      hide Run, Step, LostRace;
      r := CommitFrameworkTerminal(me, status, faults.commit);
      won := r.Ok?;
      if r.Err? && r.error.TerminalStateAlreadySet? {
        LostNow(schedule, me.writer);
        ghost var before := schedule;
        r := Reread(me, faults.reread);
        StaysLost(before, schedule, me.writer);
      } else if LostRace(schedule, me.writer) {
        LostToTheTerminal(schedule, me.writer);
      }
    }

    // ---- CancelTask ----

    /** With a positive poll interval the wait ends, having slept at most the grace, and at most
        that interval after each of the reads (`asked`), whatever of them (`polls`) fail. An Ok
        answer is the task's one terminal, CANCELED by this handler exactly if it `won`; CANCELED
        is forced only after the grace, and not on a task that the first poll sees terminal; and
        the handler fails exactly if the task was not there, or its forced write fails. */
    method CancelGraceThenCommit(me: Me, grace: nat, poll: nat, polls: nat -> bool, faults: WriteFaults)
      returns (r: Result<Task, StoreError>, slept: nat, asked: nat, won: bool)
      requires Valid() && me.writer !in world.writers && 0 < poll
      modifies this
      ensures Later() && slept <= grace && slept <= asked * poll
      ensures match r
              case Ok(t) => IsTheTerminal(world.store, t)
              case Err(e) => e == Backend || (e == TaskNotFound && old(world.store.task).None?)
      ensures me.writer in world.writers ==>
                now >= old(now) + grace && (r.Err? ==> world.writers[me.writer].pc == GaveUp(r.error))
      ensures r == Err(Backend) <==> me.writer in world.writers && WriteFails(schedule, me.writer, faults)
      ensures Terminal(old(world.store)) && 0 < grace && !polls(0) ==> r.Ok? && slept == 0 && me.writer !in world.writers
      ensures if won then r.Ok? && WonBy(world.store, Status(Canceled, None), me.writer, r.value)
              else NotBy(world.store, me.writer)
    {
      hide Run, Step, WriteFails, WonBy, NotBy, IsTheTerminal;
      var deadline := now + grace;
      slept, asked, won := 0, 0, false;
      while now < deadline
        invariant Later() && me.writer !in world.writers
        invariant slept <= now - old(now) && slept <= grace && slept <= asked * poll
        invariant if asked == 0 then now == old(now) else polls(0) || !Terminal(old(world.store))
        decreases deadline - now
      {
        var got := ReadTask(me, polls(asked));
        asked := asked + 1;
        if got.Ok? {
          if got.value.None? {
            NothingWritten(me);
            return Err(TaskNotFound), slept, asked, false;
          }
          if IsTerminal(got.value.value.status.state) {
            NothingWritten(me);
            RowIsTheTerminal(world.store);
            return Ok(got.value.value), slept, asked, false;
          }
        }
        if now >= deadline {
          break;
        }
        var pause := if poll <= deadline - now then poll else deadline - now;
        Sleep(me, pause);
        slept := slept + pause;
        OncePerRead(asked, poll);
      }
      r, won := ForceTerminal(me, Status(Canceled, None), faults);
    }

    static lemma RowIsTheTerminal(st: Store)
      requires Terminal(st)
      ensures IsTheTerminal(st, st.task.value)
    {
    }

    static lemma OncePerRead(asked: nat, poll: nat)
      requires asked > 0
      ensures asked * poll == (asked - 1) * poll + poll
    {
    }

    lemma NothingWritten(me: Me)
      requires Valid() && me.writer !in world.writers
      ensures NotBy(world.store, me.writer)
    {
      ReachableInv(schedule);
      NotWonNotLogged(world, me.writer);
    }

    method RequestCancel(me: Me, fails: bool) returns (r: Result<(), StoreError>)
      requires Valid()
      modifies this
      ensures Later() && Untouched(old(world), world, me)
      ensures match r
              case Ok(_) =>
                && world.store.task.Some? && world.store.cancelRequested && !Terminal(world.store)
                && MarkedSince(schedule, |old(schedule)|, me.writer)
              case Err(e) =>
                && IdleSince(schedule, |old(schedule)|, me)
                && (e == Backend || (e == TaskNotFound && old(world.store.task).None?)
                    || (e.TerminalStateAlreadySet? && Terminal(world.store)))
      ensures r == Err(Backend) <==> fails
    {
      Await(me);
      if fails {
        return Err(Backend);
      }
      match SetCancelRequested(world.store)
      case Ok(_) =>
        Take(MarkCancel(me.writer));
        assert schedule[|schedule| - 1] == MarkCancel(me.writer);
        return Ok(());
      case Err(e) => return Err(e);
    }

    /** The whole of CancelTask: never Ok on a task that was terminal; refused as not cancelable
        only on a task that was terminal at the first read or at the marker, without a step of
        its own; and failed in storage only by a call that it makes and that fails. Once its
        marker is set, the answer is the task's one terminal, whoever committed it, unless its
        own write is forced and fails. */
    method CoreCancelTask(me: Me, grace: nat, poll: nat, polls: nat -> bool, faults: CancelFaults)
      returns (r: Result<Task, CancelError>)
      requires Valid() && me.writer !in world.writers && 0 < poll
      modifies this
      ensures Later()
      ensures match r
              case Ok(t) =>
                && IsTheTerminal(world.store, t) && !Terminal(old(world.store)) && world.store.cancelRequested
                && MarkedSince(schedule, |old(schedule)|, me.writer)
              case Err(NoSuchTask) => old(world.store.task).None? && IdleSince(schedule, |old(schedule)|, me)
              case Err(NotCancelable) =>
                Terminal(world.store) && NotBy(world.store, me.writer) && IdleSince(schedule, |old(schedule)|, me)
              case Err(StorageFailed) =>
                || faults.read
                || (!Terminal(old(world.store)) && world.store.task.Some?
                    && (faults.mark || (me.writer in world.writers && world.writers[me.writer].pc == GaveUp(Backend))))
      ensures faults.read ==> r == Err(StorageFailed)
      ensures faults.read || faults.mark ==> r.Err? && me.writer !in world.writers
      ensures MarkedSince(schedule, |old(schedule)|, me.writer) ==>
                r.Ok? || (me.writer in world.writers && WriteFails(schedule, me.writer, faults.write))
      ensures me.writer in world.writers ==>
                now >= old(now) + grace && MarkedSince(schedule, |old(schedule)|, me.writer)
      ensures me.writer in world.writers ==> (r == Err(StorageFailed) <==> WriteFails(schedule, me.writer, faults.write))
    {
      hide Run, Step, WriteFails, Touches, IdleSince, MarkedSince, IsTheTerminal, WonBy, NotBy;
      ghost var start := schedule;
      var got := ReadTask(me, faults.read);
      IdleNotMarked(schedule, |start|, me);
      if got.Err? {
        return Err(StorageFailed);
      }
      if got.value.None? {
        return Err(NoSuchTask);
      }
      if IsTerminal(got.value.value.status.state) {
        NothingWritten(me);
        return Err(NotCancelable);
      }
      ghost var asked := schedule;
      var marked := RequestCancel(me, faults.mark);
      if marked.Err? {
        IdleInTwo(start, asked, schedule, me);
        IdleNotMarked(schedule, |start|, me);
        if marked.error.TerminalStateAlreadySet? {
          NothingWritten(me);
        }
        return Err(CancelErrorOf(marked.error));
      }
      ghost var requested := schedule;
      var answer, slept, polled, won := CancelGraceThenCommit(me, grace, poll, polls, faults.write);
      StaysMarked(requested, schedule, |asked|, |start|, me.writer);
      return match answer case Ok(t) => Ok(t) case Err(e) => Err(CancelErrorOf(e));
    }
  }

  lemma IdleInTwo(start: seq<Label>, mid: seq<Label>, end: seq<Label>, me: Me)
    requires start <= mid <= end && IdleSince(mid, |start|, me) && IdleSince(end, |mid|, me)
    ensures IdleSince(end, |start|, me)
  {
    hide Touches;
    forall i: nat | |start| <= i < |end| ensures !Touches(end[i], me) {
      assert i < |mid| ==> end[i] == mid[i];
    }
  }

  lemma StaysMarked(before: seq<Label>, after: seq<Label>, n: nat, m: nat, h: Id)
    requires before <= after && MarkedSince(before, n, h) && m <= n
    ensures MarkedSince(after, m, h)
  {
    var i: nat :| n <= i < |before| && before[i] == MarkCancel(h);
    assert after[i] == MarkCancel(h);
  }
}
