// A refused send leaves no trace: the run is the one without it.
module Refusals {
  import opened Wrappers
  import opened Lifecycle
  import opened TaskLog
  import opened AtomicStore
  import opened Protocol
  import opened Footprints
  import opened Records

  // A step of send s, or on behalf of it.
  predicate IsOf(l: Label, s: Id) {
    match l
    case SendResolve(t, _, _, _) => t == s
    case SendRecord(t) => t == s
    case SendLease(t, _) => t == s
    case SendStart(t) => t == s
    case SendSpawn(t, _) => t == s
    case SendEnqueue(t) => t == s
    case SendCompensate(t, _, _) => t == s
    case SendFail(t) => t == s
    case JobSpawn(t, _) => t == s
    case _ => false
  }

  /** The schedule as if the send had never been made. */
  function Without(ls: seq<Label>, s: Id): seq<Label> {
    if ls == [] then []
    else
      var l := ls[|ls| - 1];
      Without(ls[..|ls| - 1], s) + if IsOf(l, s) then [] else [l]
  }

  function Forget(w: World, s: Id): World {
    w.(sends := w.sends - {s})
  }

  predicate Absent(w: World, s: Id) {
    s in w.sends ==> w.sends[s].pc.Refused?
  }

  // ---- One step ----

  lemma OwnStepIsNothing(w: World, l: Label, s: Id)
    requires IsOf(l, s) && Absent(w, s)
    ensures Forget(Step(w, l), s) == Forget(w, s)
  {
    if l.SendResolve? && s !in w.sends {
      var x := Send(l.message, l.followUp, ResolveTarget(w.store, l.followUp, l.inFlightHere));
      assert Step(w, l) == w.(sends := w.sends[s := x]);
      assert w.sends[s := x] - {s} == w.sends - {s};
    } else {
      assert Step(w, l) == w;
    }
  }

  lemma OthersForget(w: World, t: Id, s: Id, x: Send)
    requires t != s
    ensures w.sends[t := x] - {s} == (w.sends - {s})[t := x]
  {
  }

  lemma RecordForgets(w: World, t: Id, s: Id)
    requires t != s && t in w.sends
    ensures Forget(StepRecord(w, t), s) == StepRecord(Forget(w, s), t)
  {
    hide RecordMessage;
    forall pc ensures w.sends[t := w.sends[t].(pc := pc)] - {s} == (w.sends - {s})[t := w.sends[t].(pc := pc)] {
      OthersForget(w, t, s, w.sends[t].(pc := pc));
    }
  }

  lemma StartForgets(w: World, t: Id, s: Id)
    requires t != s && t in w.sends
    ensures Forget(StepStart(w, t), s) == StepStart(Forget(w, s), t)
  {
    hide UpdateTaskStatusWithEvents;
    forall pc ensures w.sends[t := w.sends[t].(pc := pc)] - {s} == (w.sends - {s})[t := w.sends[t].(pc := pc)] {
      OthersForget(w, t, s, w.sends[t].(pc := pc));
    }
  }

  lemma ResolveForgets(w: World, l: Label, s: Id)
    requires l.SendResolve? && l.s != s
    ensures Forget(StepSend(w, l), s) == StepSend(Forget(w, s), l)
  {
    hide ResolveTarget;
    OthersForget(w, l.s, s, Send(l.message, l.followUp, ResolveTarget(w.store, l.followUp, l.inFlightHere)));
  }

  lemma StorageForgets(w: World, l: Label, s: Id)
    requires (l.SendRecord? || l.SendStart?) && l.s != s
    ensures Forget(StepSend(w, l), s) == StepSend(Forget(w, s), l)
  {
    hide StepRecord, StepStart;
    if l.s in w.sends {
      RecordForgets(w, l.s, s);
      StartForgets(w, l.s, s);
    }
  }

  lemma LeaseForgets(w: World, l: Label, s: Id)
    requires l.SendLease? && l.s != s
    ensures Forget(StepSend(w, l), s) == StepSend(Forget(w, s), l)
  {
    hide WriteLease;
    if l.s in w.sends {
      OthersForget(w, l.s, s, w.sends[l.s].(pc := Leased));
    }
  }

  lemma EnqueueForgets(w: World, l: Label, s: Id)
    requires (l.SendEnqueue? || l.SendFail?) && l.s != s
    ensures Forget(StepSend(w, l), s) == StepSend(Forget(w, s), l)
  {
    if l.s in w.sends {
      OthersForget(w, l.s, s, w.sends[l.s].(pc := if l.SendEnqueue? then Enqueued else SendPc.Failed(Backend)));
    }
  }

  lemma SpawnForgets(w: World, l: Label, s: Id)
    requires l.SendSpawn? && l.s != s
    ensures Forget(StepSend(w, l), s) == StepSend(Forget(w, s), l)
  {
    if l.s in w.sends {
      OthersForget(w, l.s, s, w.sends[l.s].(pc := Spawned(l.f)));
    }
  }

  lemma CompensateForgets(w: World, l: Label, s: Id)
    requires l.SendCompensate? && l.s != s
    ensures Forget(StepSend(w, l), s) == StepSend(Forget(w, s), l)
  {
    if l.s in w.sends {
      OthersForget(w, l.s, s, w.sends[l.s].(pc := Compensated(l.h)));
    }
  }

  lemma ExecutorForgets(w: World, l: Label, s: Id)
    requires l.SinkExit? || l.SenderDrop? || (l.JobSpawn? && l.s != s)
    ensures Forget(StepSend(w, l), s) == StepSend(Forget(w, s), l)
  {
  }

  lemma SendForgets(w: World, l: Label, s: Id)
    requires IsSendLabel(l) && !IsOf(l, s)
    ensures Forget(StepSend(w, l), s) == StepSend(Forget(w, s), l)
  {
    hide StepSend, Forget;
    match l
    case SendResolve(_, _, _, _) => ResolveForgets(w, l, s);
    case SendRecord(_) => StorageForgets(w, l, s);
    case SendStart(_) => StorageForgets(w, l, s);
    case SendLease(_, _) => LeaseForgets(w, l, s);
    case SendEnqueue(_) => EnqueueForgets(w, l, s);
    case SendFail(_) => EnqueueForgets(w, l, s);
    case SendSpawn(_, _) => SpawnForgets(w, l, s);
    case SendCompensate(_, _, _) => CompensateForgets(w, l, s);
    case _ => ExecutorForgets(w, l, s);
  }

  lemma FinishForgets(w: World, e: Id, r: EmitResult, s: Id)
    requires e in w.emits && w.emits[e].sink in w.sinks
    ensures Forget(Finish(w, e, r), s) == Finish(Forget(w, s), e, r)
  {
  }

  lemma LockForgets(w: World, e: Id, s: Id)
    requires e in w.emits && w.emits[e].sink in w.sinks
    ensures Forget(StepLock(w, e), s) == StepLock(Forget(w, s), e)
  {
    FinishForgets(w, e, SinkClosed, s);
    hide Finish;
  }

  lemma ReadForgets(w: World, e: Id, s: Id)
    requires e in w.emits && w.emits[e].sink in w.sinks
    ensures Forget(StepRead(w, e), s) == StepRead(Forget(w, s), e)
  {
    FinishForgets(w, e, StoreRefused(TaskNotFound), s);
    hide Finish;
  }

  lemma RefusedForgets(w: World, e: Id, err: StoreError, s: Id)
    requires e in w.emits && w.emits[e].sink in w.sinks
    ensures Forget(Finish(w, e, StoreRefused(err)), s) == Finish(Forget(w, s), e, StoreRefused(err))
    ensures var f := w.emits[e].sink;
            Forget(Finish(Close(w, f), e, SinkClosed), s) == Finish(Close(Forget(w, s), f), e, SinkClosed)
  {
    FinishForgets(w, e, StoreRefused(err), s);
    FinishForgets(Close(w, w.emits[e].sink), e, SinkClosed, s);
    hide Finish;
  }

  lemma CommitForgets(w: World, e: Id, s: Id)
    requires e in w.emits && w.emits[e].sink in w.sinks
    requires w.emits[e].op.EmitArtifact? ==> w.emits[e].pc.HasRead?
    ensures Forget(StepCommit(w, e), s) == StepCommit(Forget(w, s), e)
  {
    hide UpdateTaskStatusWithEvents, UpdateTaskWithEvents, Merged;
    match EmitWrite(w.store, w.emits[e], e)
    case Ok(_) =>
    case Err(err) =>
      hide EmitWrite, Finish, Close;
      RefusedForgets(w, e, err, s);
  }

  lemma PublishForgets(w: World, e: Id, s: Id)
    requires e in w.emits && w.emits[e].sink in w.sinks && w.emits[e].pc.Committed?
    ensures Forget(StepPublish(w, e), s) == StepPublish(Forget(w, s), e)
  {
    hide AfterStatusCommit;
  }

  lemma CallForgets(w: World, l: Label, s: Id)
    requires l.EmitCall?
    ensures Forget(StepEmit(w, l), s) == StepEmit(Forget(w, s), l)
  {
  }

  lemma ReturnForgets(w: World, l: Label, s: Id)
    requires l.EmitReturn? || l.EmitFail? || l.EmitDrop?
    ensures Forget(StepEmit(w, l), s) == StepEmit(Forget(w, s), l)
  {
    hide Finish;
    if l.e in w.emits && w.emits[l.e].sink in w.sinks {
      forall r: EmitResult ensures Forget(Finish(w, l.e, r), s) == Finish(Forget(w, s), l.e, r) {
        FinishForgets(w, l.e, r, s);
      }
    }
  }

  lemma LockStepForgets(w: World, l: Label, s: Id)
    requires l.EmitLock? || l.EmitRead?
    ensures Forget(StepEmit(w, l), s) == StepEmit(Forget(w, s), l)
  {
    hide StepLock, StepRead;
    if l.e in w.emits && w.emits[l.e].sink in w.sinks {
      LockForgets(w, l.e, s);
      ReadForgets(w, l.e, s);
    }
  }

  lemma CommitStepForgets(w: World, l: Label, s: Id)
    requires l.EmitCommit?
    ensures Forget(StepEmit(w, l), s) == StepEmit(Forget(w, s), l)
  {
    hide StepCommit;
    if l.e in w.emits && w.emits[l.e].sink in w.sinks
       && (if w.emits[l.e].op.EmitStatus? then w.emits[l.e].pc.Holding? else w.emits[l.e].pc.HasRead?) {
      CommitForgets(w, l.e, s);
    }
  }

  lemma PublishStepForgets(w: World, l: Label, s: Id)
    requires l.EmitPublish?
    ensures Forget(StepEmit(w, l), s) == StepEmit(Forget(w, s), l)
  {
    hide StepPublish;
    if l.e in w.emits && w.emits[l.e].pc.Committed? && w.emits[l.e].sink in w.sinks {
      PublishForgets(w, l.e, s);
    }
  }

  lemma EmitForgets(w: World, l: Label, s: Id)
    requires IsEmitLabel(l)
    ensures Forget(StepEmit(w, l), s) == StepEmit(Forget(w, s), l)
  {
    hide StepEmit, Forget;
    match l
    case EmitCall(_, _, _) => CallForgets(w, l, s);
    case EmitLock(_) => LockStepForgets(w, l, s);
    case EmitRead(_) => LockStepForgets(w, l, s);
    case EmitCommit(_) => CommitStepForgets(w, l, s);
    case EmitPublish(_) => PublishStepForgets(w, l, s);
    case _ => ReturnForgets(w, l, s);
  }

  lemma WriterForgets(w: World, h: Id, s: Id)
    requires h in w.writers
    ensures Forget(StepWriterCommit(w, h), s) == StepWriterCommit(Forget(w, s), h)
    ensures Forget(StepWriterReread(w, h), s) == StepWriterReread(Forget(w, s), h)
    ensures w.writers[h].pc.Won? ==> Forget(StepWriterDispatch(w, h), s) == StepWriterDispatch(Forget(w, s), h)
  {
    hide UpdateTaskStatusWithEvents;
  }

  lemma ReaderForgets(w: World, l: Label, s: Id)
    requires l.ReaderSequence? || l.ReaderSnapshot? || l.ReaderPoll?
    ensures Forget(StepOther(w, l), s) == StepOther(Forget(w, s), l)
  {
    hide Deliver, ClosesStream, ClosingEvent;
  }

  lemma OtherForgets(w: World, l: Label, s: Id)
    requires !IsSendLabel(l) && !IsEmitLabel(l)
    ensures Forget(StepOther(w, l), s) == StepOther(Forget(w, s), l)
  {
    if l.ReaderSequence? || l.ReaderSnapshot? || l.ReaderPoll? {
      ReaderForgets(w, l, s);
    } else {
      hide StepWriterCommit, StepWriterReread, StepWriterDispatch, SetCancelRequested, WriteLease;
      match l
      case WriterCommit(h) => if h in w.writers { WriterForgets(w, h, s); }
      case WriterDispatch(h) => if h in w.writers { WriterForgets(w, h, s); }
      case WriterReread(h) => if h in w.writers { WriterForgets(w, h, s); }
      case _ =>
    }
  }

  lemma StepForgets(w: World, l: Label, s: Id)
    requires !IsOf(l, s)
    ensures Forget(Step(w, l), s) == Step(Forget(w, s), l)
  {
    hide StepSend, StepEmit, StepOther, Forget;
    if IsSendLabel(l) {
      SendForgets(w, l, s);
    } else if IsEmitLabel(l) {
      EmitForgets(w, l, s);
    } else {
      OtherForgets(w, l, s);
    }
  }

  // Only its resolution refuses a send.
  lemma WasAbsent(w: World, l: Label, s: Id)
    requires Absent(Step(w, l), s)
    ensures Absent(w, s)
  {
    if s in w.sends {
      if !IsSendLabel(l) {
        SendsUntouched(w, l);
      } else {
        OneSendMoves(w, l);
        if IsOf(l, s) {
          OwnStepRefusesNothing(w, l, s);
        }
      }
    }
  }

  lemma SendsUntouched(w: World, l: Label)
    requires !IsSendLabel(l)
    ensures Step(w, l).sends == w.sends
  {
    if !IsEmitLabel(l) {
      OtherTouches(w, l);
    } else if !l.EmitCall? && StepEmit(w, l) != w {
      EmitIsLocal(w, l);
    }
  }

  lemma OwnStepRefusesNothing(w: World, l: Label, s: Id)
    requires IsOf(l, s) && s in w.sends && s in StepSend(w, l).sends && StepSend(w, l).sends[s].pc.Refused?
    ensures w.sends[s].pc.Refused?
  {
    if l.SendRecord? || l.SendStart? {
      StorageStepMovesForward(w, l);
      hide StepSend;
    }
  }

  // ---- Every schedule ----

  /** In every schedule, a send that was refused has made no difference to anything but the
      list of sends. */
  lemma {:induction false} RefusedLeavesNoTrace(ls: seq<Label>, s: Id)
    requires Absent(Run(START, ls), s)
    ensures Run(START, Without(ls, s)) == Forget(Run(START, ls), s)
  {
    if ls == [] {
      assert START.sends - {s} == START.sends;
    } else {
      hide Step, Absent, Forget;
      var before, l := ls[..|ls| - 1], ls[|ls| - 1];
      WasAbsent(Run(START, before), l, s);
      RefusedLeavesNoTrace(before, s);
      if IsOf(l, s) {
        assert Without(ls, s) == Without(before, s);
        OwnStepIsNothing(Run(START, before), l, s);
      } else {
        assert Without(ls, s)[..|Without(ls, s)| - 1] == Without(before, s);
        StepForgets(Run(START, before), l, s);
      }
    }
  }
}
