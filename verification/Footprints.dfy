// What each kind of step can touch. Every invariant proof frames with these.
module Footprints {
  import opened Wrappers
  import opened Lifecycle
  import opened TaskLog
  import opened AtomicStore
  import opened Protocol

  // ---- Sends and executors ----

  lemma RecordTouchesStoreAndSend(w: World, s: Id)
    requires s in w.sends
    ensures StepRecord(w, s) == w.(sends := StepRecord(w, s).sends, store := StepRecord(w, s).store)
  {
    hide RecordMessage;
  }

  lemma StartTouchesStoreAndSend(w: World, s: Id)
    requires s in w.sends
    ensures StepStart(w, s) == w.(sends := StepStart(w, s).sends, store := StepStart(w, s).store)
  {
    hide UpdateTaskStatusWithEvents;
  }

  // What a send's own steps leave alone: emits, dispatches and streams.
  ghost predicate NoEmitTouched(w: World, w': World) {
    w'.emits == w.emits && w'.dispatches == w.dispatches && w'.readers == w.readers
  }

  lemma SetSinkTouchesNoEmit(w: World, f: Id, k: Sink)
    ensures NoEmitTouched(w, SetSink(w, f, k))
  {
  }

  lemma ExitTouchesNoEmit(w: World, l: Label)
    requires l.SinkExit? || l.SenderDrop?
    ensures NoEmitTouched(w, StepSend(w, l))
  {
    hide SetSink;
    if l.f in w.sinks {
      SetSinkTouchesNoEmit(w, l.f, w.sinks[l.f].(live := false));
      SetSinkTouchesNoEmit(w, l.f, w.sinks[l.f].(dropped := true));
    }
  }

  lemma SpawnTouchesNoEmit(w: World, l: Label)
    requires l.SendSpawn? || l.JobSpawn? || l.SendCompensate?
    ensures NoEmitTouched(w, StepSend(w, l))
  {
  }

  lemma OwnStepTouchesNoEmit(w: World, l: Label)
    requires l.SendResolve? || l.SendLease? || l.SendEnqueue? || l.SendFail?
    ensures NoEmitTouched(w, StepSend(w, l))
  {
    hide ResolveTarget, WriteLease;
  }

  lemma StorageTouchesNoEmit(w: World, l: Label)
    requires l.SendRecord? || l.SendStart?
    ensures NoEmitTouched(w, StepSend(w, l))
  {
    hide StepRecord, StepStart;
    if l.s in w.sends {
      RecordTouchesStoreAndSend(w, l.s);
      StartTouchesStoreAndSend(w, l.s);
    }
  }

  lemma SendTouchesNoEmit(w: World, l: Label)
    requires IsSendLabel(l)
    ensures NoEmitTouched(w, StepSend(w, l))
  {
    if l.SendRecord? || l.SendStart? {
      StorageTouchesNoEmit(w, l);
      hide StepSend;
    } else if l.SinkExit? || l.SenderDrop? {
      ExitTouchesNoEmit(w, l);
      hide StepSend;
    } else if l.SendSpawn? || l.JobSpawn? || l.SendCompensate? {
      SpawnTouchesNoEmit(w, l);
      hide StepSend;
    } else {
      OwnStepTouchesNoEmit(w, l);
      hide StepSend;
    }
  }

  lemma OnlySpawnsAndExitsTouchSinks(w: World, l: Label)
    requires IsSendLabel(l) && !l.SendSpawn? && !l.JobSpawn? && !l.SinkExit? && !l.SenderDrop?
    ensures StepSend(w, l).sinks == w.sinks
  {
    hide StepRecord, StepStart, ResolveTarget, WriteLease;
    match l
    case SendRecord(s) =>
      if s in w.sends {
        RecordTouchesStoreAndSend(w, s);
      }
    case SendStart(s) =>
      if s in w.sends {
        StartTouchesStoreAndSend(w, s);
      }
    case _ =>
  }

  // Existing sinks change at most in whether their executor and their sender are there; new
  // ones are open and have not fired.
  ghost predicate OnlyComesAndGoes(w: World, w': World) {
    && (forall f | f in w.sinks ::
          f in w'.sinks && w'.sinks[f] == w.sinks[f].(live := w'.sinks[f].live, dropped := w'.sinks[f].dropped))
    && (forall f | f in w'.sinks && f !in w.sinks :: !w'.sinks[f].isClosed && w'.sinks[f].yielded.None?)
  }

  lemma SpawnTouchesSinks(w: World, l: Label)
    requires l.SendSpawn? || l.JobSpawn?
    ensures OnlyComesAndGoes(w, StepSend(w, l))
  {
    hide CreateTaskWithEvents, UpdateTaskStatusWithEvents, AppendMessage, WriteLease, ResolveTarget, StepRecord, StepStart;
  }

  lemma MarkComesAndGoes(w: World, f: Id, k: Sink)
    requires f in w.sinks && k == w.sinks[f].(live := k.live, dropped := k.dropped)
    ensures OnlyComesAndGoes(w, SetSink(w, f, k))
  {
  }

  lemma NothingComesOrGoes(w: World)
    ensures OnlyComesAndGoes(w, w)
  {
  }

  lemma ExitTouchesSinks(w: World, l: Label)
    requires l.SinkExit? || l.SenderDrop?
    ensures OnlyComesAndGoes(w, StepSend(w, l))
  {
    hide OnlyComesAndGoes, SetSink;
    NothingComesOrGoes(w);
    match l
    case SinkExit(f) =>
      if f in w.sinks {
        MarkComesAndGoes(w, f, w.sinks[f].(live := false));
      }
    case SenderDrop(f) =>
      if f in w.sinks {
        MarkComesAndGoes(w, f, w.sinks[f].(dropped := true));
      }
  }

  lemma SendTouchesSinks(w: World, l: Label)
    requires IsSendLabel(l)
    ensures OnlyComesAndGoes(w, StepSend(w, l))
  {
    if l.SendSpawn? || l.JobSpawn? {
      SpawnTouchesSinks(w, l);
    } else if l.SinkExit? || l.SenderDrop? {
      ExitTouchesSinks(w, l);
    } else {
      OnlySpawnsAndExitsTouchSinks(w, l);
    }
  }

  lemma SendTouchesWriters(w: World, l: Label)
    requires IsSendLabel(l)
    ensures var w' := StepSend(w, l);
            && (forall h | h in w.writers :: h in w'.writers && w'.writers[h] == w.writers[h])
            && (forall h | h in w'.writers && h !in w.writers ::
                  w'.writers[h].pc.Ready? && IsTerminal(w'.writers[h].status.state))
  {
  }

  lemma OnlyRecordAndStartTouchTask(w: World, l: Label)
    requires IsSendLabel(l) && !l.SendRecord? && !l.SendStart?
    ensures StepSend(w, l).store.task == w.store.task && StepSend(w, l).store.log == w.store.log
  {
  }

  // ---- Emits ----

  // Only emit e changes, and of the sinks only the one it is on.
  ghost predicate OnlyEmit(w: World, w': World, e: Id)
    requires e in w.emits && w.emits[e].sink in w.sinks
  {
    && w'.writers == w.writers && w'.sends == w.sends && w'.readers == w.readers
    && e in w'.emits && w'.emits == w.emits[e := w'.emits[e]]
    && w'.emits[e].sink == w.emits[e].sink && w'.emits[e].op == w.emits[e].op
    && w.emits[e].sink in w'.sinks && w'.sinks == w.sinks[w.emits[e].sink := w'.sinks[w.emits[e].sink]]
  }

  // An emit neither ends a sink, reopens it, nor fires `yielded` again.
  ghost predicate SameSink(k: Sink, k': Sink) {
    && k'.live == k.live && k'.origin == k.origin && k'.dropped == k.dropped
    && (k.isClosed ==> k'.isClosed)
    && (k.yielded.Some? ==> k'.yielded == k.yielded)
  }

  // A step of emit e: nothing else moves, and nothing is spawned or ends.
  ghost predicate Local(w: World, w': World, e: Id) {
    && e in w.emits && w.emits[e].sink in w.sinks
    && OnlyEmit(w, w', e)
    && SameSink(w.sinks[w.emits[e].sink], w'.sinks[w.emits[e].sink])
    && (w.emits[e].pc.Finished? ==> w'.emits[e].pc.Finished?)
    && (w.emits[e].pc.Committed? ==> w'.emits[e].pc.Published? || w'.emits[e].pc.Finished?)
    && (w.emits[e].pc.Published? ==> w'.emits[e].pc.Finished?)
  }

  lemma FinishIsLocal(w: World, e: Id, r: EmitResult)
    requires e in w.emits && w.emits[e].sink in w.sinks
    ensures Local(w, Finish(w, e, r), e)
  {
  }

  lemma CloseAndFinishIsLocal(w: World, e: Id, r: EmitResult)
    requires e in w.emits && w.emits[e].sink in w.sinks
    ensures Local(w, Finish(Close(w, w.emits[e].sink), e, r), e)
  {
  }

  lemma CommitIsLocal(w: World, e: Id)
    requires e in w.emits && w.emits[e].sink in w.sinks && (w.emits[e].pc.Holding? || w.emits[e].pc.HasRead?)
    requires w.emits[e].op.EmitArtifact? ==> w.emits[e].pc.HasRead?
    ensures Local(w, StepCommit(w, e), e)
  {
    match EmitWrite(w.store, w.emits[e], e)
    case Ok(_) =>
    case Err(err) =>
      CloseAndFinishIsLocal(w, e, SinkClosed);
      FinishIsLocal(w, e, StoreRefused(err));
  }

  lemma PublishIsLocal(w: World, e: Id)
    requires e in w.emits && w.emits[e].sink in w.sinks && w.emits[e].pc.Committed?
    ensures Local(w, StepPublish(w, e), e)
  {
  }

  lemma LockIsLocal(w: World, e: Id)
    requires e in w.emits && w.emits[e].sink in w.sinks && w.emits[e].pc.Waiting?
    ensures Local(w, StepLock(w, e), e)
  {
  }

  lemma ReadIsLocal(w: World, e: Id)
    requires e in w.emits && w.emits[e].sink in w.sinks && w.emits[e].pc.Holding?
    ensures Local(w, StepRead(w, e), e)
  {
  }

  lemma EmitIsLocal(w: World, l: Label)
    requires IsEmitLabel(l) && !l.EmitCall? && StepEmit(w, l) != w
    ensures Local(w, StepEmit(w, l), l.e)
  {
    match l
    case EmitLock(e) => LockIsLocal(w, e);
    case EmitRead(e) => ReadIsLocal(w, e);
    case EmitCommit(e) => CommitIsLocal(w, e);
    case EmitPublish(e) => PublishIsLocal(w, e);
    case EmitReturn(e) => FinishIsLocal(w, e, Emitted(w.emits[e].pc.at));
    case EmitFail(e) => FinishIsLocal(w, e, StoreRefused(Backend));
    case EmitDrop(e) =>
      FinishIsLocal(w, e, if w.emits[e].pc.Published? then Unanswered(w.emits[e].pc.at) else Dropped);
  }

  lemma OnlyCommitTouchesStore(w: World, l: Label)
    requires IsEmitLabel(l) && !l.EmitCommit?
    ensures StepEmit(w, l).store == w.store
  {
  }

  // ---- Framework terminals, markers, leases, streams ----

  lemma OnlyWriterCommitTouchesTask(w: World, l: Label)
    requires !IsSendLabel(l) && !IsEmitLabel(l) && !l.WriterCommit?
    ensures StepOther(w, l).store.task == w.store.task && StepOther(w, l).store.log == w.store.log
  {
  }

  lemma OtherTouches(w: World, l: Label)
    requires !IsSendLabel(l) && !IsEmitLabel(l)
    ensures var w' := StepOther(w, l);
            && w'.emits == w.emits && w'.sinks == w.sinks && w'.sends == w.sends
            && (!l.WriterCommit? ==> w'.store.task == w.store.task && w'.store.log == w.store.log)
  {
    if !l.WriterCommit? {
      OnlyWriterCommitTouchesTask(w, l);
    }
  }

  lemma OnlyReadersTouchReaders(w: World, l: Label)
    requires !IsSendLabel(l) && !IsEmitLabel(l)
    ensures !l.ReaderSequence? && !l.ReaderSnapshot? && !l.ReaderPoll? ==> StepOther(w, l).readers == w.readers
  {
  }
}
