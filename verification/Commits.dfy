// Where the tasks come from that calls hand around: whatever task an emit, a framework
// writer, `yielded`, a push dispatch or a stream holds, it was the stored row at some moment,
// and a commit's is the row that very commit stored.
module Commits {
  import opened Wrappers
  import opened Lifecycle
  import opened TaskLog
  import opened AtomicStore
  import opened Protocol
  import opened Footprints
  import opened Safety
  import opened Records
  import opened Runs

  // A place that may hold a task, and how the task got there.
  datatype Place =
    | AtEmit(e: Id)
    | AtWriter(h: Id)
    | AtSink(f: Id)
    | AtDispatch(i: nat)
    | AtReader(r: Id)

  datatype Held =
    | Read(task: Task)
    | Wrote(commit: Commit)

  ghost function HeldAt(w: World, p: Place): Option<Held> {
    match p
    case AtEmit(e) =>
      if e !in w.emits then None
      else (match w.emits[e].pc
            case HasRead(t) => Some(Read(t))
            case Committed(c) => Some(Wrote(c))
            case _ => None)
    case AtWriter(h) =>
      if h !in w.writers then None
      else (match w.writers[h].pc
            case Won(c) => Some(Wrote(c))
            case Answered(t) => Some(Read(t))
            case _ => None)
    case AtSink(f) =>
      if f !in w.sinks || w.sinks[f].yielded.None? then None else Some(Wrote(w.sinks[f].yielded.value))
    case AtDispatch(i) =>
      if i >= |w.dispatches| then None else Some(Wrote(Commit(w.dispatches[i].at, w.dispatches[i].task)))
    case AtReader(r) =>
      if r !in w.readers || !w.readers[r].Streaming? then None else Some(Read(w.readers[r].snapshot))
  }

  /** This step stores the commit's task, with its entry. */
  ghost predicate StoresRow(st: Store, st': Store, c: Commit) {
    st'.task == Some(c.task) && c.at == |st'.log| == |st.log| + 1
  }

  /** The row was this task at some moment of the schedule; or this commit is what one of its
      steps stored. */
  ghost predicate WasStored(ls: seq<Label>, x: Held) {
    match x
    case Read(t) => exists n :: 0 <= n <= |ls| && RowAt(ls, n) == Some(t)
    case Wrote(c) => exists n :: 0 < n <= |ls| && StoredBy(ls, n, c)
  }

  ghost function RowAt(ls: seq<Label>, n: nat): Option<Task>
    requires n <= |ls|
  {
    Run(START, ls[..n]).store.task
  }

  ghost predicate StoredBy(ls: seq<Label>, n: nat, c: Commit)
    requires 0 < n <= |ls|
  {
    StoresRow(Run(START, ls[..n - 1]).store, Run(START, ls[..n]).store, c)
  }

  // What a step finds in a place was held before, or is the stored row, or is what the step
  // stores.
  ghost predicate ComesFrom(w: World, w': World, x: Held, q: Option<Place>) {
    match q
    case Some(p) =>
      && HeldAt(w, p).Some?
      && (HeldAt(w, p).value == x || (x.Read? && HeldAt(w, p).value.Wrote? && HeldAt(w, p).value.commit.task == x.task))
    case None =>
      match x
      case Read(t) => w.store.task == Some(t)
      case Wrote(c) => StoresRow(w.store, w'.store, c)
  }

  // ---- One step ----

  lemma SendHolds(w: World, l: Label, p: Place)
    requires IsSendLabel(l) && HeldAt(StepSend(w, l), p).Some?
    ensures HeldAt(w, p) == HeldAt(StepSend(w, l), p)
  {
    hide StepSend;
    SendTouchesNoEmit(w, l);
    SendTouchesSinks(w, l);
    SendTouchesWriters(w, l);
  }

  lemma AcceptedHolds(w: World, e: Id, x: Write, p: Place) returns (q: Option<Place>)
    requires e in w.emits && x.store.task == Some(x.commit.task) && x.commit.at == |x.store.log| == |w.store.log| + 1
    requires HeldAt(SetEmit(w, e, Committed(x.commit)).(store := x.store), p).Some?
    ensures var w' := SetEmit(w, e, Committed(x.commit)).(store := x.store);
            ComesFrom(w, w', HeldAt(w', p).value, q)
  {
    q := if p == AtEmit(e) then None else Some(p);
  }

  lemma CloseHolds(w: World, f: Id, p: Place)
    requires f in w.sinks
    ensures HeldAt(w, p) == HeldAt(Close(w, f), p)
  {
  }

  lemma CommitHolds(w: World, e: Id, p: Place) returns (q: Option<Place>)
    requires e in w.emits && w.emits[e].sink in w.sinks
    requires if w.emits[e].op.EmitStatus? then w.emits[e].pc.Holding? else w.emits[e].pc.HasRead?
    requires HeldAt(StepCommit(w, e), p).Some?
    ensures ComesFrom(w, StepCommit(w, e), HeldAt(StepCommit(w, e), p).value, q)
  {
    q := Some(p);
    match EmitWrite(w.store, w.emits[e], e)
    case Ok(x) =>
      hide HeldAt;
      q := AcceptedHolds(w, e, x, p);
    case Err(err) =>
      hide HeldAt, Finish, Close;
      if err.TerminalStateAlreadySet? {
        CloseHolds(w, w.emits[e].sink, p);
        assert w.emits[e].sink in Close(w, w.emits[e].sink).sinks && e in Close(w, w.emits[e].sink).emits by {
          CloseKeeps(w, w.emits[e].sink);
        }
        FinishHolds(Close(w, w.emits[e].sink), e, SinkClosed, p);
      } else {
        FinishHolds(w, e, StoreRefused(err), p);
      }
  }

  lemma CloseKeeps(w: World, f: Id)
    requires f in w.sinks
    ensures Close(w, f).sinks.Keys == w.sinks.Keys && Close(w, f).emits == w.emits
  {
  }

  lemma PublishHolds(w: World, e: Id, p: Place) returns (q: Option<Place>)
    requires e in w.emits && w.emits[e].sink in w.sinks && w.emits[e].pc.Committed?
    requires HeldAt(StepPublish(w, e), p).Some?
    ensures ComesFrom(w, StepPublish(w, e), HeldAt(StepPublish(w, e), p).value, q)
  {
    q := Some(if HeldAt(w, p) == HeldAt(StepPublish(w, e), p) then p else AtEmit(e));
  }

  lemma FinishHolds(w: World, e: Id, r: EmitResult, p: Place)
    requires e in w.emits && w.emits[e].sink in w.sinks && HeldAt(Finish(w, e, r), p).Some?
    ensures HeldAt(w, p) == HeldAt(Finish(w, e, r), p)
  {
  }

  lemma LockHolds(w: World, e: Id, p: Place)
    requires e in w.emits && w.emits[e].sink in w.sinks && HeldAt(StepLock(w, e), p).Some?
    ensures HeldAt(w, p) == HeldAt(StepLock(w, e), p)
  {
  }

  lemma ReadHolds(w: World, e: Id, p: Place) returns (q: Option<Place>)
    requires e in w.emits && w.emits[e].sink in w.sinks && HeldAt(StepRead(w, e), p).Some?
    ensures ComesFrom(w, StepRead(w, e), HeldAt(StepRead(w, e), p).value, q)
  {
    q := if HeldAt(w, p) == HeldAt(StepRead(w, e), p) then Some(p) else None;
  }

  lemma EmitHolds(w: World, l: Label, p: Place) returns (q: Option<Place>)
    requires IsEmitLabel(l) && StepEmit(w, l) != w && HeldAt(StepEmit(w, l), p).Some?
    ensures ComesFrom(w, StepEmit(w, l), HeldAt(StepEmit(w, l), p).value, q)
  {
    hide HeldAt, StepCommit, StepPublish, StepLock, StepRead, Finish;
    q := Some(p);
    match l
    case EmitCall(e, f, op) => CallHolds(w, e, f, op, p);
    case EmitLock(e) => LockHolds(w, e, p);
    case EmitRead(e) => q := ReadHolds(w, e, p);
    case EmitCommit(e) => q := CommitHolds(w, e, p);
    case EmitPublish(e) => q := PublishHolds(w, e, p);
    case EmitReturn(e) => FinishHolds(w, e, Emitted(w.emits[e].pc.at), p);
    case EmitFail(e) => FinishHolds(w, e, StoreRefused(Backend), p);
    case EmitDrop(e) =>
      FinishHolds(w, e, if w.emits[e].pc.Published? then Unanswered(w.emits[e].pc.at) else Dropped, p);
  }

  lemma CallHolds(w: World, e: Id, f: Id, op: EmitOp, p: Place)
    requires e !in w.emits && HeldAt(w.(emits := w.emits[e := Emit(f, op, Waiting)]), p).Some?
    ensures HeldAt(w, p) == HeldAt(w.(emits := w.emits[e := Emit(f, op, Waiting)]), p)
  {
  }

  lemma WriterCommitHolds(w: World, h: Id, p: Place) returns (q: Option<Place>)
    requires h in w.writers && HeldAt(StepWriterCommit(w, h), p).Some?
    ensures ComesFrom(w, StepWriterCommit(w, h), HeldAt(StepWriterCommit(w, h), p).value, q)
  {
    hide ValidateTransition;
    q := if p == AtWriter(h) then None else Some(p);
  }

  lemma WriterDispatchHolds(w: World, h: Id, p: Place) returns (q: Option<Place>)
    requires h in w.writers && w.writers[h].pc.Won? && HeldAt(StepWriterDispatch(w, h), p).Some?
    ensures ComesFrom(w, StepWriterDispatch(w, h), HeldAt(StepWriterDispatch(w, h), p).value, q)
  {
    q := Some(if HeldAt(w, p) == HeldAt(StepWriterDispatch(w, h), p) then p else AtWriter(h));
  }

  lemma WriterRereadHolds(w: World, h: Id, p: Place) returns (q: Option<Place>)
    requires h in w.writers && HeldAt(StepWriterReread(w, h), p).Some?
    ensures ComesFrom(w, StepWriterReread(w, h), HeldAt(StepWriterReread(w, h), p).value, q)
  {
    q := if p == AtWriter(h) then None else Some(p);
  }

  lemma OtherHolds(w: World, l: Label, p: Place) returns (q: Option<Place>)
    requires !IsSendLabel(l) && !IsEmitLabel(l) && HeldAt(StepOther(w, l), p).Some?
    ensures ComesFrom(w, StepOther(w, l), HeldAt(StepOther(w, l), p).value, q)
  {
    hide StepWriterCommit, StepWriterDispatch, StepWriterReread, StepPoll;
    q := Some(p);
    if StepOther(w, l) != w {
      match l
      case WriterCommit(h) => q := WriterCommitHolds(w, h, p);
      case WriterDispatch(h) => q := WriterDispatchHolds(w, h, p);
      case WriterReread(h) => q := WriterRereadHolds(w, h, p);
      case ReaderSnapshot(r) =>
        if HeldAt(w, p) != HeldAt(StepOther(w, l), p) {
          q := None;
        }
      case ReaderPoll(r) => PollHolds(w, r);
      case _ =>
    }
  }

  lemma PollHolds(w: World, r: Id)
    requires r in w.readers && w.readers[r].Streaming? && w.readers[r].last <= |w.store.log|
    ensures StepPoll(w, r).Streaming? && StepPoll(w, r).snapshot == w.readers[r].snapshot
  {
    hide Deliver;
  }

  lemma StepHolds(w: World, l: Label, p: Place) returns (q: Option<Place>)
    requires HeldAt(Step(w, l), p).Some?
    ensures ComesFrom(w, Step(w, l), HeldAt(Step(w, l), p).value, q)
  {
    hide HeldAt, StepSend, StepEmit, StepOther;
    q := Some(p);
    if IsSendLabel(l) {
      SendHolds(w, l, p);
    } else if !IsEmitLabel(l) {
      q := OtherHolds(w, l, p);
    } else if StepEmit(w, l) != w {
      q := EmitHolds(w, l, p);
    }
  }

  // ---- Every schedule ----

  lemma StoredStays(ls: seq<Label>, more: seq<Label>, x: Held)
    requires WasStored(ls, x)
    ensures WasStored(ls + more, x)
  {
    hide Run, StoresRow;
    match x
    case Read(t) =>
      var n :| 0 <= n <= |ls| && RowAt(ls, n) == Some(t);
      assert (ls + more)[..n] == ls[..n];
      assert RowAt(ls + more, n) == Some(t);
    case Wrote(c) =>
      var n :| 0 < n <= |ls| && StoredBy(ls, n, c);
      assert (ls + more)[..n] == ls[..n] && (ls + more)[..n - 1] == ls[..n - 1];
      assert StoredBy(ls + more, n, c);
  }

  lemma WrittenIsARow(ls: seq<Label>, c: Commit)
    requires WasStored(ls, Wrote(c))
    ensures WasStored(ls, Read(c.task))
  {
    hide Run;
    var n :| 0 < n <= |ls| && StoredBy(ls, n, c);
    assert RowAt(ls, n) == Some(c.task);
  }

  /** In every schedule: no call holds a task that was never the stored row, and whoever holds
      the outcome of a commit holds the row that this commit stored. */
  lemma {:induction false} HeldWasStored(ls: seq<Label>, p: Place)
    requires HeldAt(Run(START, ls), p).Some?
    ensures WasStored(ls, HeldAt(Run(START, ls), p).value)
  {
    if ls == [] {
      NothingHeld(p);
    } else {
      hide Step, HeldAt, WasStored;
      var before, l := ls[..|ls| - 1], ls[|ls| - 1];
      assert ls == before + [l];
      var x := HeldAt(Run(START, ls), p).value;
      var q := StepHolds(Run(START, before), l, p);
      match q
      case Some(p') =>
        HeldWasStored(before, p');
        StoredStays(before, [l], HeldAt(Run(START, before), p').value);
        if HeldAt(Run(START, before), p').value != x {
          WrittenIsARow(ls, HeldAt(Run(START, before), p').value.commit);
        }
      case None => StoredNow(ls, x);
    }
  }

  lemma NothingHeld(p: Place)
    ensures HeldAt(START, p).None?
  {
  }

  lemma TheRowWasStored(ls: seq<Label>, t: Task)
    requires Run(START, ls).store.task == Some(t)
    ensures WasStored(ls, Read(t))
  {
    hide Run;
    assert ls[..|ls|] == ls;
    assert RowAt(ls, |ls|) == Some(t);
  }

  lemma StoredNow(ls: seq<Label>, x: Held)
    requires ls != []
    requires ComesFrom(Run(START, ls[..|ls| - 1]), Run(START, ls), x, None)
    ensures WasStored(ls, x)
  {
    hide Run, StoresRow;
    var n := |ls|;
    assert ls[..n] == ls;
    match x
    case Read(t) => assert RowAt(ls, n - 1) == Some(t);
    case Wrote(c) => assert StoredBy(ls, n, c);
  }

  /** Any time after, a terminal commit's task is what the row says. */
  lemma TerminalStays(ls: seq<Label>, t: Task)
    requires WasStored(ls, Read(t)) && IsTerminal(t.status.state)
    ensures IsTheTerminal(Run(START, ls).store, t)
  {
    hide Run, Step, Inv;
    var n :| 0 <= n <= |ls| && RowAt(ls, n) == Some(t);
    RowsGrow(ls, n);
  }

  lemma {:induction false} RowsGrow(ls: seq<Label>, n: nat)
    requires n <= |ls|
    ensures Grows(Run(START, ls[..n]).store, Run(START, ls).store)
  {
    if n == |ls| {
      assert ls[..n] == ls;
    } else {
      hide Step;
      var before := ls[..|ls| - 1];
      assert before[..n] == ls[..n];
      RowsGrow(before, n);
      ReachesInv(before);
      StepKeepsInv(Run(START, before), ls[|ls| - 1]);
    }
  }

  // ---- Whose commit `yielded` carries ----

  /** The entry that `yielded` carries was committed by an emit on that very sink. */
  ghost predicate YieldsItsOwn(w: World) {
    forall f | f in w.sinks && w.sinks[f].yielded.Some? ::
      w.sinks[f].yielded.value.at > 0 && CommittedOn(w, w.sinks[f].yielded.value.at - 1, f)
  }

  lemma CommittedOnStays(w: World, w': World, i: nat, f: Id)
    requires CommittedOn(w, i, f) && w.store.log <= w'.store.log
    requires forall e | e in w.emits :: e in w'.emits && w'.emits[e].sink == w.emits[e].sink
    ensures CommittedOn(w', i, f)
  {
    assert w'.store.log[i] == w.store.log[i];
  }

  // Steps that leave `yielded` where it was set, and set none.
  lemma YieldsFrame(w: World, w': World)
    requires YieldsItsOwn(w) && w.store.log <= w'.store.log
    requires forall e | e in w.emits :: e in w'.emits && w'.emits[e].sink == w.emits[e].sink
    requires forall f | f in w'.sinks && w'.sinks[f].yielded.Some? ::
      f in w.sinks && w.sinks[f].yielded == w'.sinks[f].yielded
    ensures YieldsItsOwn(w')
  {
    hide CommittedOn;
    forall f | f in w'.sinks && w'.sinks[f].yielded.Some?
      ensures w'.sinks[f].yielded.value.at > 0 && CommittedOn(w', w'.sinks[f].yielded.value.at - 1, f)
    {
      CommittedOnStays(w, w', w.sinks[f].yielded.value.at - 1, f);
    }
  }

  // At most sink f yields, and with c.
  ghost predicate MayYield(w: World, w': World, f: Id, c: Commit) {
    forall g | g in w'.sinks ::
      && g in w.sinks
      && (w'.sinks[g].yielded == w.sinks[g].yielded || (g == f && w'.sinks[g].yielded == Some(c)))
  }

  lemma PublishYields(w: World, e: Id)
    requires e in w.emits && w.emits[e].sink in w.sinks && w.emits[e].pc.Committed?
    ensures StepPublish(w, e).store == w.store
    ensures MayYield(w, StepPublish(w, e), w.emits[e].sink, w.emits[e].pc.commit)
  {
  }

  lemma PendingIsItsOwn(w: World, e: Id)
    requires Inv(w) && e in w.emits && w.emits[e].pc.Committed?
    ensures w.emits[e].pc.commit.at > 0 && CommittedOn(w, w.emits[e].pc.commit.at - 1, w.emits[e].sink)
  {
    assert EmitOk(w, e);
  }

  lemma NewYield(w: World, w': World, f: Id, c: Commit)
    requires YieldsItsOwn(w) && w'.store == w.store && c.at > 0 && CommittedOn(w, c.at - 1, f)
    requires forall e | e in w.emits :: e in w'.emits && w'.emits[e].sink == w.emits[e].sink
    requires MayYield(w, w', f, c)
    ensures YieldsItsOwn(w')
  {
    hide CommittedOn;
    forall g | g in w'.sinks && w'.sinks[g].yielded.Some?
      ensures w'.sinks[g].yielded.value.at > 0 && CommittedOn(w', w'.sinks[g].yielded.value.at - 1, g)
    {
      CommittedOnStays(w, w', w'.sinks[g].yielded.value.at - 1, g);
    }
  }

  lemma PublishYieldsItsOwn(w: World, e: Id)
    requires Inv(w) && YieldsItsOwn(w) && e in w.emits && w.emits[e].sink in w.sinks && w.emits[e].pc.Committed?
    ensures YieldsItsOwn(StepPublish(w, e))
  {
    PendingIsItsOwn(w, e);
    PublishIsLocal(w, e);
    PublishYields(w, e);
    hide StepPublish, Inv, CommittedOn, YieldsItsOwn;
    NewYield(w, StepPublish(w, e), w.emits[e].sink, w.emits[e].pc.commit);
  }

  // No sink yields, and none is new.
  ghost predicate SameYields(w: World, w': World) {
    forall f | f in w'.sinks :: f in w.sinks && w.sinks[f].yielded == w'.sinks[f].yielded
  }

  lemma FinishYieldsNothing(w: World, e: Id, r: EmitResult)
    requires e in w.emits && w.emits[e].sink in w.sinks
    ensures SameYields(w, Finish(w, e, r)) && SameYields(w, Finish(Close(w, w.emits[e].sink), e, r))
  {
  }

  lemma LockYieldsNothing(w: World, e: Id)
    requires e in w.emits && w.emits[e].sink in w.sinks
    ensures SameYields(w, StepLock(w, e))
  {
    FinishYieldsNothing(w, e, SinkClosed);
    hide Finish;
  }

  lemma ReadYieldsNothing(w: World, e: Id)
    requires e in w.emits && w.emits[e].sink in w.sinks
    ensures SameYields(w, StepRead(w, e))
  {
    FinishYieldsNothing(w, e, StoreRefused(TaskNotFound));
    hide Finish;
  }

  lemma CommitYieldsNothing(w: World, e: Id)
    requires e in w.emits && w.emits[e].sink in w.sinks
    requires w.emits[e].op.EmitArtifact? ==> w.emits[e].pc.HasRead?
    ensures SameYields(w, StepCommit(w, e))
  {
    match EmitWrite(w.store, w.emits[e], e)
    case Ok(_) =>
    case Err(err) =>
      hide Finish, Close;
      FinishYieldsNothing(w, e, StoreRefused(err));
      FinishYieldsNothing(w, e, SinkClosed);
  }

  lemma OnlyPublishYields(w: World, l: Label)
    requires IsEmitLabel(l) && !l.EmitPublish? && StepEmit(w, l) != w
    ensures SameYields(w, StepEmit(w, l))
  {
    hide SameYields, StepLock, StepRead, StepCommit, Finish;
    match l
    case EmitCall(e, f, op) => CallYieldsNothing(w, e, f, op);
    case EmitLock(e) => LockYieldsNothing(w, e);
    case EmitRead(e) => ReadYieldsNothing(w, e);
    case EmitCommit(e) => CommitYieldsNothing(w, e);
    case EmitReturn(e) => FinishYieldsNothing(w, e, Emitted(w.emits[e].pc.at));
    case EmitFail(e) => FinishYieldsNothing(w, e, StoreRefused(Backend));
    case EmitDrop(e) =>
      FinishYieldsNothing(w, e, if w.emits[e].pc.Published? then Unanswered(w.emits[e].pc.at) else Dropped);
  }

  lemma CallYieldsNothing(w: World, e: Id, f: Id, op: EmitOp)
    ensures SameYields(w, w.(emits := w.emits[e := Emit(f, op, Waiting)]))
  {
  }

  lemma StepYieldsItsOwn(w: World, l: Label)
    requires Inv(w) && YieldsItsOwn(w)
    ensures YieldsItsOwn(Step(w, l))
  {
    hide YieldsItsOwn, Inv;
    StepKeepsInv(w, l);
    StepKeepsEmitSinks(w, l);
    if IsSendLabel(l) {
      SendTouchesSinks(w, l);
      hide StepSend;
      YieldsFrame(w, Step(w, l));
    } else if !IsEmitLabel(l) {
      OtherTouches(w, l);
      hide StepOther;
      YieldsFrame(w, Step(w, l));
    } else if l.EmitPublish? {
      if StepEmit(w, l) != w {
        PublishYieldsItsOwn(w, l.e);
      }
    } else if StepEmit(w, l) != w {
      OnlyPublishYields(w, l);
      hide StepEmit;
      YieldsFrame(w, Step(w, l));
    }
  }

  lemma {:induction false} YieldedByItsSink(ls: seq<Label>)
    ensures YieldsItsOwn(Run(START, ls))
  {
    if ls != [] {
      hide Step, Inv;
      YieldedByItsSink(ls[..|ls| - 1]);
      ReachesInv(ls[..|ls| - 1]);
      StepYieldsItsOwn(Run(START, ls[..|ls| - 1]), ls[|ls| - 1]);
    }
  }
}
