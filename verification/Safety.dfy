// What holds in every schedule, with no assumption about sinks: any number of sink
// families, redelivered jobs and overlapping sends.
module Safety {
  import opened Wrappers
  import opened Lifecycle
  import opened TaskLog
  import opened AtomicStore
  import opened Protocol
  import opened Footprints

  /** Entry number n (counted from 1) is this event, committed by this call. */
  ghost predicate Logged(st: Store, n: nat, e: Event, author: Author) {
    1 <= n <= |st.log| && st.log[n - 1] == Entry(e, author)
  }

  // The stored task is terminal and this is what it says.
  ghost predicate IsTheTerminal(st: Store, t: Task) {
    Terminal(st) && ViewOf(t) == ViewOf(st.task.value)
  }

  ghost predicate EmitOk(w: World, e: Id)
    requires e in w.emits
  {
    var x := w.emits[e];
    && x.sink in w.sinks
    && (InLock(x.pc) ==> w.sinks[x.sink].lock == Some(e))
    && match x.pc
       case HasRead(t) => x.op.EmitArtifact? && (IsTerminal(t.status.state) ==> Terminal(w.store))
       case Committed(c) =>
         && Logged(w.store, c.at, EventOf(x.op), ByEmit(e))
         && (x.op.EmitStatus? ==> c.task.status == x.op.status)
       case Published(at) => Logged(w.store, at, EventOf(x.op), ByEmit(e))
       case Finished(r) => r.Emitted? || r.Unanswered? ==> Logged(w.store, r.at, EventOf(x.op), ByEmit(e))
       case _ => true
  }

  ghost predicate SinkOk(w: World, f: Id)
    requires f in w.sinks
  {
    var k := w.sinks[f];
    && (k.isClosed ==> Terminal(w.store))
    && (k.yielded.Some? ==>
          var c := k.yielded.value;
          && 1 <= c.at <= |w.store.log|
          && w.store.log[c.at - 1].event == StatusUpdate(c.task.status)
          && (IsTerminal(c.task.status.state) || ClientHeld(c.task.status.state)))
  }

  ghost predicate WriterOk(w: World, h: Id)
    requires h in w.writers
  {
    var x := w.writers[h];
    && IsTerminal(x.status.state)
    && match x.pc
       case Won(c) =>
         && Logged(w.store, c.at, StatusUpdate(x.status), ByWriter(h))
         && IsTheTerminal(w.store, c.task) && c.task.status == x.status
       case Lost => Terminal(w.store)
       case Answered(t) => IsTheTerminal(w.store, t)
       case _ => true
  }

  // The call behind a dispatch is over, so it cannot dispatch again.
  ghost predicate Done(w: World, a: Author) {
    match a
    case ByEmit(e) => e in w.emits && (w.emits[e].pc.Published? || w.emits[e].pc.Finished?)
    case ByWriter(h) => h in w.writers && w.writers[h].pc.Answered?
    case BySend(_) => false
  }

  ghost predicate DispatchOk(w: World, d: Dispatch) {
    && 1 <= d.at <= |w.store.log|
    && w.store.log[d.at - 1].author == d.author
    && w.store.log[d.at - 1].event == StatusUpdate(d.task.status)
    // An emit's event is rebuilt from the state alone; the framework's is the one it logged.
    && d.event == StatusUpdate(if d.author.ByEmit? then Status(d.task.status.state, None) else d.task.status)
    && Done(w, d.author)
  }

  ghost predicate EmitInv(w: World) {
    forall e | e in w.emits :: EmitOk(w, e)
  }

  ghost predicate SinkInv(w: World) {
    forall f | f in w.sinks :: SinkOk(w, f)
  }

  ghost predicate WriterInv(w: World) {
    forall h | h in w.writers :: WriterOk(w, h)
  }

  ghost predicate DispatchInv(w: World) {
    && (forall i | 0 <= i < |w.dispatches| :: DispatchOk(w, w.dispatches[i]))
    && (forall i, j | 0 <= i < j < |w.dispatches| :: w.dispatches[i].at != w.dispatches[j].at)
  }

  ghost predicate Inv(w: World) {
    && Consistent(w.store)
    && EmitInv(w)
    && SinkInv(w)
    && WriterInv(w)
    && DispatchInv(w)
  }

  // ---- Steps that touch only some of the parties ----

  lemma EmitsFrame(w: World, w': World)
    requires EmitInv(w) && Grows(w.store, w'.store) && w'.emits == w.emits
    requires forall f | f in w.sinks :: f in w'.sinks && w'.sinks[f].lock == w.sinks[f].lock
    ensures EmitInv(w')
  {
    forall e | e in w'.emits ensures EmitOk(w', e) {
      assert EmitOk(w, e);
    }
  }

  lemma SinksFrame(w: World, w': World)
    requires SinkInv(w) && Grows(w.store, w'.store)
    requires forall f | f in w'.sinks ::
      if f in w.sinks then w'.sinks[f].isClosed == w.sinks[f].isClosed && w'.sinks[f].yielded == w.sinks[f].yielded
      else !w'.sinks[f].isClosed && w'.sinks[f].yielded.None?
    ensures SinkInv(w')
  {
    forall f | f in w'.sinks ensures SinkOk(w', f) {
      assert f in w.sinks ==> SinkOk(w, f);
    }
  }

  lemma WritersFrame(w: World, w': World)
    requires WriterInv(w) && Grows(w.store, w'.store)
    requires forall h | h in w'.writers ::
      (h in w.writers && w'.writers[h] == w.writers[h]) || (w'.writers[h].pc.Ready? && IsTerminal(w'.writers[h].status.state))
    ensures WriterInv(w')
  {
    forall h | h in w'.writers ensures WriterOk(w', h) {
      assert h in w.writers ==> WriterOk(w, h);
    }
  }

  ghost predicate StaysDone(w: World, w': World) {
    && (forall e | e in w.emits && (w.emits[e].pc.Published? || w.emits[e].pc.Finished?) ::
          e in w'.emits && (w'.emits[e].pc.Published? || w'.emits[e].pc.Finished?))
    && (forall h | h in w.writers && w.writers[h].pc.Answered? :: h in w'.writers && w'.writers[h].pc.Answered?)
  }

  lemma DispatchesFrame(w: World, w': World)
    requires DispatchInv(w) && Grows(w.store, w'.store) && w'.dispatches == w.dispatches && StaysDone(w, w')
    ensures DispatchInv(w')
  {
    forall i | 0 <= i < |w'.dispatches| ensures DispatchOk(w', w'.dispatches[i]) {
      assert DispatchOk(w, w.dispatches[i]);
    }
  }

  /** A dispatch by a call that had not finished before concerns an entry nobody dispatched. */
  lemma NewDispatch(w: World, w': World, d: Dispatch)
    requires DispatchInv(w) && w'.store == w.store && w'.dispatches == w.dispatches + [d] && StaysDone(w, w')
    requires DispatchOk(w', d) && !Done(w, d.author)
    ensures DispatchInv(w')
  {
    forall i | 0 <= i < |w'.dispatches| ensures DispatchOk(w', w'.dispatches[i]) {
      assert i < |w.dispatches| ==> DispatchOk(w, w.dispatches[i]);
    }
    forall i, j | 0 <= i < j < |w'.dispatches| ensures w'.dispatches[i].at != w'.dispatches[j].at {
      assert DispatchOk(w, w.dispatches[i]);
    }
  }

  // ---- Sends ----

  lemma SendKeepsStore(w: World, l: Label)
    requires Consistent(w.store) && IsSendLabel(l)
    ensures Consistent(StepSend(w, l).store) && Grows(w.store, StepSend(w, l).store)
  {
    if l.SendStart? && StepSend(w, l) != w {
      StatusWriteKeeps(w.store, Status(Working, None), BySend(l.s));
    }
  }

  lemma SendKeepsInv(w: World, l: Label)
    requires Inv(w) && IsSendLabel(l)
    ensures Inv(StepSend(w, l)) && Grows(w.store, StepSend(w, l).store)
  {
    var w' := StepSend(w, l);
    SendKeepsStore(w, l);
    SendTouchesNoEmit(w, l);
    SendTouchesSinks(w, l);
    SendTouchesWriters(w, l);
    EmitsFrame(w, w');
    SinksFrame(w, w');
    WritersFrame(w, w');
    DispatchesFrame(w, w');
  }

  // ---- Emits ----

  lemma OtherEmitsKeep(w: World, w': World, e: Id)
    requires EmitInv(w) && Grows(w.store, w'.store) && e in w.emits && w.emits[e].sink in w.sinks
    requires OnlyEmit(w, w', e) && EmitOk(w', e)
    requires var f := w.emits[e].sink; w'.sinks[f].lock != w.sinks[f].lock ==> w.sinks[f].lock in {None, Some(e)}
    ensures EmitInv(w')
  {
    forall x | x in w'.emits ensures EmitOk(w', x) {
      if x != e {
        assert EmitOk(w, x);
      }
    }
  }

  lemma OtherSinksKeep(w: World, w': World, e: Id)
    requires SinkInv(w) && Grows(w.store, w'.store) && e in w.emits && w.emits[e].sink in w.sinks
    requires OnlyEmit(w, w', e) && SinkOk(w', w.emits[e].sink)
    ensures SinkInv(w')
  {
    forall f | f in w'.sinks ensures SinkOk(w', f) {
      if f != w.emits[e].sink {
        assert SinkOk(w, f);
      }
    }
  }

  lemma FinishTouches(w: World, e: Id, r: EmitResult)
    requires e in w.emits && w.emits[e].sink in w.sinks && EmitOk(w, e) && SinkOk(w, w.emits[e].sink)
    requires r.Emitted? || r.Unanswered? ==> Logged(w.store, r.at, EventOf(w.emits[e].op), ByEmit(e))
    ensures var w' := Finish(w, e, r);
            && w'.store == w.store && w'.dispatches == w.dispatches
            && OnlyEmit(w, w', e) && EmitOk(w', e) && SinkOk(w', w.emits[e].sink)
            && (InLock(w.emits[e].pc) || w'.sinks == w.sinks)
  {
  }

  lemma FinishKeepsInv(w: World, e: Id, r: EmitResult)
    requires Inv(w) && e in w.emits && w.emits[e].sink in w.sinks && !w.emits[e].pc.Finished?
    requires r.Emitted? || r.Unanswered? ==> Logged(w.store, r.at, EventOf(w.emits[e].op), ByEmit(e))
    ensures Inv(Finish(w, e, r)) && Finish(w, e, r).store == w.store
  {
    var w' := Finish(w, e, r);
    assert EmitOk(w, e) && SinkOk(w, w.emits[e].sink);
    FinishTouches(w, e, r);
    OtherEmitsKeep(w, w', e);
    OtherSinksKeep(w, w', e);
    WritersFrame(w, w');
    DispatchesFrame(w, w');
  }

  lemma LockKeepsInv(w: World, e: Id)
    requires Inv(w) && e in w.emits && w.emits[e].sink in w.sinks
    requires w.emits[e].pc.Waiting? && w.sinks[w.emits[e].sink].lock.None?
    ensures Inv(StepLock(w, e)) && StepLock(w, e).store == w.store
  {
    var w' := StepLock(w, e);
    var f := w.emits[e].sink;
    if w.sinks[f].isClosed {
      FinishKeepsInv(w, e, SinkClosed);
    } else {
      assert EmitOk(w, e) && SinkOk(w, f);
      OtherEmitsKeep(w, w', e);
      OtherSinksKeep(w, w', e);
      WritersFrame(w, w');
      DispatchesFrame(w, w');
    }
  }

  lemma ReadKeepsInv(w: World, e: Id)
    requires Inv(w) && e in w.emits && w.emits[e].sink in w.sinks
    requires w.emits[e].pc.Holding? && w.emits[e].op.EmitArtifact?
    ensures Inv(StepRead(w, e)) && StepRead(w, e).store == w.store
  {
    var w' := StepRead(w, e);
    if w.store.task.None? {
      FinishKeepsInv(w, e, StoreRefused(TaskNotFound));
    } else {
      assert EmitOk(w, e) && SinkOk(w, w.emits[e].sink);
      OtherEmitsKeep(w, w', e);
      OtherSinksKeep(w, w', e);
      WritersFrame(w, w');
      DispatchesFrame(w, w');
    }
  }

  lemma EmitWriteKeeps(w: World, e: Id)
    requires Inv(w) && e in w.emits
    requires if w.emits[e].op.EmitStatus? then w.emits[e].pc.Holding? else w.emits[e].pc.HasRead?
    ensures var x := w.emits[e];
            match EmitWrite(w.store, x, e)
            case Ok(r) =>
              && Consistent(r.store) && Grows(w.store, r.store) && !Terminal(w.store)
              && r.store.log == w.store.log + [Entry(EventOf(x.op), ByEmit(e))]
              && Logged(r.store, r.commit.at, EventOf(x.op), ByEmit(e))
              && (x.op.EmitStatus? ==> r.commit.task.status == x.op.status)
            case Err(err) => err.TerminalStateAlreadySet? <==> Terminal(w.store)
  {
    var x := w.emits[e];
    assert EmitOk(w, e);
    match x.op
    case EmitStatus(status) => StatusWriteKeeps(w.store, status, ByEmit(e));
    case EmitArtifact(_, _, _) => ReplaceKeeps(w.store, Merged(x.pc.task, x.op), EventOf(x.op), ByEmit(e));
  }

  lemma CloseKeepsInv(w: World, f: Id)
    requires Inv(w) && f in w.sinks && Terminal(w.store)
    ensures Inv(Close(w, f))
  {
    var w' := Close(w, f);
    EmitsFrame(w, w');
    forall g | g in w'.sinks ensures SinkOk(w', g) {
      assert SinkOk(w, g);
    }
    WritersFrame(w, w');
    DispatchesFrame(w, w');
  }

  lemma AcceptedCommitKeepsInv(w: World, e: Id)
    requires Inv(w) && e in w.emits && w.emits[e].sink in w.sinks
    requires if w.emits[e].op.EmitStatus? then w.emits[e].pc.Holding? else w.emits[e].pc.HasRead?
    requires EmitWrite(w.store, w.emits[e], e).Ok?
    ensures Inv(StepCommit(w, e)) && Grows(w.store, StepCommit(w, e).store)
  {
    var w' := StepCommit(w, e);
    EmitWriteKeeps(w, e);
    assert EmitOk(w, e);
    assert EmitOk(w', e);
    OtherEmitsKeep(w, w', e);
    SinksFrame(w, w');
    WritersFrame(w, w');
    DispatchesFrame(w, w');
  }

  lemma CommitKeepsInv(w: World, e: Id)
    requires Inv(w) && e in w.emits && w.emits[e].sink in w.sinks
    requires if w.emits[e].op.EmitStatus? then w.emits[e].pc.Holding? else w.emits[e].pc.HasRead?
    ensures Inv(StepCommit(w, e)) && Grows(w.store, StepCommit(w, e).store)
  {
    match EmitWrite(w.store, w.emits[e], e)
    case Ok(_) => AcceptedCommitKeepsInv(w, e);
    case Err(err) =>
      if err.TerminalStateAlreadySet? {
        EmitWriteKeeps(w, e);
        CloseKeepsInv(w, w.emits[e].sink);
        FinishKeepsInv(Close(w, w.emits[e].sink), e, SinkClosed);
      } else {
        FinishKeepsInv(w, e, StoreRefused(err));
      }
  }

  /** A terminal entry is the last one, so whoever committed it sees a terminal task. */
  lemma TerminalEntry(st: Store, n: nat)
    requires Consistent(st) && 1 <= n <= |st.log| && TerminalEvent(st.log[n - 1].event)
    ensures n == |st.log| && Terminal(st) && st.log[n - 1].event == StatusUpdate(st.task.value.status)
  {
  }

  /** The flags that a status commit sets are backed by its log entry. */
  lemma FlagsKeepSink(w: World, e: Id)
    requires Inv(w) && e in w.emits && w.emits[e].sink in w.sinks
    requires w.emits[e].pc.Committed? && w.emits[e].op.EmitStatus?
    ensures var f := w.emits[e].sink;
            SinkOk(SetSink(w, f, AfterStatusCommit(w.sinks[f], w.emits[e].pc.commit, w.emits[e].op.status.state)), f)
  {
    hide DispatchInv, WriterInv, Done;
    var x := w.emits[e];
    assert EmitOk(w, e) && SinkOk(w, x.sink);
    if IsTerminal(x.op.status.state) {
      TerminalEntry(w.store, x.pc.commit.at);
    }
  }

  lemma PublishedEmitOk(w: World, e: Id)
    requires Inv(w) && e in w.emits && w.emits[e].sink in w.sinks && w.emits[e].pc.Committed?
    ensures EmitOk(StepPublish(w, e), e)
  {
    hide DispatchInv, WriterInv, Done, Consistent;
    assert EmitOk(w, e);
  }

  lemma StatusPublishShape(w: World, e: Id)
    requires Inv(w) && e in w.emits && w.emits[e].sink in w.sinks
    requires w.emits[e].pc.Committed? && w.emits[e].op.EmitStatus?
    ensures var w', f := StepPublish(w, e), w.emits[e].sink;
            && OnlyEmit(w, w', e) && w'.store == w.store
            && w'.sinks[f] == AfterStatusCommit(w.sinks[f], w.emits[e].pc.commit, w.emits[e].op.status.state)
            && |w'.dispatches| == |w.dispatches| + 1 && w'.dispatches[..|w.dispatches|] == w.dispatches
            && DispatchOk(w', w'.dispatches[|w.dispatches|]) && w'.dispatches[|w.dispatches|].author == ByEmit(e)
            && w'.emits[e].pc.Published?
  {
    hide Consistent, DispatchInv, WriterInv, SinkInv;
    assert EmitOk(w, e);
  }

  lemma StatusPublishKeepsInv(w: World, e: Id)
    requires Inv(w) && e in w.emits && w.emits[e].sink in w.sinks
    requires w.emits[e].pc.Committed? && w.emits[e].op.EmitStatus?
    ensures Inv(StepPublish(w, e)) && StepPublish(w, e).store == w.store
  {
    hide Consistent, AfterStatusCommit, DispatchOk, WriterOk;
    StatusPublishShape(w, e);
    FlagsKeepSink(w, e);
    PublishedEmitOk(w, e);
    hide StepPublish;
    var w' := StepPublish(w, e);
    assert SinkOk(w', w.emits[e].sink);
    OtherEmitsKeep(w, w', e);
    OtherSinksKeep(w, w', e);
    WritersFrame(w, w');
    NewDispatch(w, w', w'.dispatches[|w.dispatches|]);
  }

  lemma ArtifactPublishKeepsInv(w: World, e: Id)
    requires Inv(w) && e in w.emits && w.emits[e].sink in w.sinks
    requires w.emits[e].pc.Committed? && w.emits[e].op.EmitArtifact?
    ensures Inv(StepPublish(w, e)) && StepPublish(w, e).store == w.store
  {
    hide Consistent;
    var w' := StepPublish(w, e);
    assert EmitOk(w, e) && SinkOk(w, w.emits[e].sink);
    PublishedEmitOk(w, e);
    OtherEmitsKeep(w, w', e);
    OtherSinksKeep(w, w', e);
    WritersFrame(w, w');
    DispatchesFrame(w, w');
  }

  lemma PublishKeepsInv(w: World, e: Id)
    requires Inv(w) && e in w.emits && w.emits[e].sink in w.sinks && w.emits[e].pc.Committed?
    ensures Inv(StepPublish(w, e)) && StepPublish(w, e).store == w.store
  {
    if w.emits[e].op.EmitStatus? {
      StatusPublishKeepsInv(w, e);
    } else {
      ArtifactPublishKeepsInv(w, e);
    }
  }

  lemma ReturnKeepsInv(w: World, e: Id)
    requires Inv(w) && e in w.emits && w.emits[e].sink in w.sinks && w.emits[e].pc.Published?
    ensures Inv(Finish(w, e, Emitted(w.emits[e].pc.at))) && Inv(StepDrop(w, e))
    ensures Finish(w, e, Emitted(w.emits[e].pc.at)).store == w.store && StepDrop(w, e).store == w.store
  {
    assert EmitOk(w, e);
    FinishKeepsInv(w, e, Emitted(w.emits[e].pc.at));
    FinishKeepsInv(w, e, Unanswered(w.emits[e].pc.at));
  }

  lemma DropKeepsInv(w: World, e: Id)
    requires Inv(w) && e in w.emits && w.emits[e].sink in w.sinks && !w.emits[e].pc.Finished?
    ensures Inv(StepDrop(w, e)) && StepDrop(w, e).store == w.store
  {
    if w.emits[e].pc.Published? {
      ReturnKeepsInv(w, e);
    } else {
      FinishKeepsInv(w, e, Dropped);
    }
  }

  lemma CallKeepsInv(w: World, e: Id, f: Id, op: EmitOp)
    requires Inv(w) && e !in w.emits && f in w.sinks
    ensures Inv(w.(emits := w.emits[e := Emit(f, op, Waiting)]))
  {
    var w' := w.(emits := w.emits[e := Emit(f, op, Waiting)]);
    forall x | x in w'.emits ensures EmitOk(w', x) {
      assert x != e ==> EmitOk(w, x);
    }
    SinksFrame(w, w');
    WritersFrame(w, w');
    DispatchesFrame(w, w');
  }

  lemma EmitKeepsInv(w: World, l: Label)
    requires Inv(w) && IsEmitLabel(l)
    ensures Inv(StepEmit(w, l)) && Grows(w.store, StepEmit(w, l).store)
  {
    match l
    case EmitCall(e, f, op) =>
      if StepEmit(w, l) != w { CallKeepsInv(w, e, f, op); }
    case EmitLock(e) =>
      if StepEmit(w, l) != w { LockKeepsInv(w, e); }
    case EmitRead(e) =>
      if StepEmit(w, l) != w { ReadKeepsInv(w, e); }
    case EmitCommit(e) =>
      if StepEmit(w, l) != w { CommitKeepsInv(w, e); }
    case EmitPublish(e) =>
      if StepEmit(w, l) != w { PublishKeepsInv(w, e); }
    case EmitFail(e) =>
      if StepEmit(w, l) != w { FinishKeepsInv(w, e, StoreRefused(Backend)); }
    case EmitReturn(e) =>
      if StepEmit(w, l) != w { ReturnKeepsInv(w, e); }
    case EmitDrop(e) =>
      if StepEmit(w, l) != w { DropKeepsInv(w, e); }
  }

  // ---- Framework terminals, markers, leases, streams ----

  lemma OtherWritersKeep(w: World, w': World, h: Id)
    requires WriterInv(w) && Grows(w.store, w'.store)
    requires h in w'.writers && w'.writers == w.writers[h := w'.writers[h]] && WriterOk(w', h)
    ensures WriterInv(w')
  {
    forall x | x in w'.writers ensures WriterOk(w', x) {
      assert x != h ==> WriterOk(w, x);
    }
  }

  lemma WriterCommitKeepsInv(w: World, h: Id)
    requires Inv(w) && h in w.writers && w.writers[h].pc.Ready?
    ensures Inv(StepWriterCommit(w, h)) && Grows(w.store, StepWriterCommit(w, h).store)
  {
    var w' := StepWriterCommit(w, h);
    assert WriterOk(w, h);
    StatusWriteKeeps(w.store, w.writers[h].status, ByWriter(h));
    EmitsFrame(w, w');
    SinksFrame(w, w');
    OtherWritersKeep(w, w', h);
    DispatchesFrame(w, w');
  }

  lemma WriterDispatchKeepsInv(w: World, h: Id)
    requires Inv(w) && h in w.writers && w.writers[h].pc.Won?
    ensures Inv(StepWriterDispatch(w, h))
  {
    var w' := StepWriterDispatch(w, h);
    assert WriterOk(w, h);
    EmitsFrame(w, w');
    SinksFrame(w, w');
    OtherWritersKeep(w, w', h);
    NewDispatch(w, w', w'.dispatches[|w.dispatches|]);
  }

  lemma WriterPcKeepsInv(w: World, w': World, h: Id)
    requires Inv(w) && h in w'.writers && w' == w.(writers := w.writers[h := w'.writers[h]])
    requires WriterOk(w', h) && (h in w.writers ==> !w.writers[h].pc.Answered?)
    ensures Inv(w')
  {
    EmitsFrame(w, w');
    SinksFrame(w, w');
    OtherWritersKeep(w, w', h);
    DispatchesFrame(w, w');
  }

  lemma MarkersKeepInv(w: World, w': World)
    requires Inv(w) && w' == w.(store := w'.store, readers := w'.readers)
    requires w'.store == w.store.(cancelRequested := w'.store.cancelRequested, lease := w'.store.lease)
    requires w.store.cancelRequested ==> w'.store.cancelRequested
    ensures Inv(w')
  {
    EmitsFrame(w, w');
    SinksFrame(w, w');
    WritersFrame(w, w');
    DispatchesFrame(w, w');
  }

  lemma OtherKeepsInv(w: World, l: Label)
    requires Inv(w) && !IsSendLabel(l) && !IsEmitLabel(l)
    ensures Inv(StepOther(w, l)) && Grows(w.store, StepOther(w, l).store)
  {
    var w' := StepOther(w, l);
    if w' != w {
      match l
      case WriterStart(h, _) => WriterPcKeepsInv(w, w', h);
      case WriterCommit(h) => WriterCommitKeepsInv(w, h);
      case WriterDispatch(h) => WriterDispatchKeepsInv(w, h);
      case WriterReread(h) =>
        assert WriterOk(w, h);
        WriterPcKeepsInv(w, w', h);
      case WriterFail(h) =>
        assert WriterOk(w, h);
        WriterPcKeepsInv(w, w', h);
      case _ => MarkersKeepInv(w, w');
    }
  }

  lemma StepKeepsInv(w: World, l: Label)
    requires Inv(w)
    ensures Inv(Step(w, l)) && Grows(w.store, Step(w, l).store)
  {
    if IsSendLabel(l) {
      SendKeepsInv(w, l);
    } else if IsEmitLabel(l) {
      EmitKeepsInv(w, l);
    } else {
      OtherKeepsInv(w, l);
    }
  }
}
