// `commit_lock`: who holds the lock of a sink, in every schedule.
module Locks {
  import opened Wrappers
  import opened Lifecycle
  import opened TaskLog
  import opened AtomicStore
  import opened Protocol
  import opened Footprints
  import opened Safety
  import opened Theorems

  /** A lock is held by a call on its own sink that is between its lock and its end. */
  ghost predicate LockOk(w: World, f: Id)
    requires f in w.sinks
  {
    match w.sinks[f].lock
    case None => true
    case Some(e) => e in w.emits && w.emits[e].sink == f && InLock(w.emits[e].pc)
  }

  ghost predicate LocksOk(w: World) {
    forall f | f in w.sinks :: LockOk(w, f)
  }

  // ---- Steps of others than emits ----

  // A new sink's lock is free, and no other lock changes.
  ghost predicate NoLockTouched(w: World, w': World) {
    forall f | f in w'.sinks :: w'.sinks[f].lock == if f in w.sinks then w.sinks[f].lock else None
  }

  lemma LocksFrame(w: World, w': World)
    requires LocksOk(w) && w'.emits == w.emits && NoLockTouched(w, w')
    ensures LocksOk(w')
  {
    forall f | f in w'.sinks ensures LockOk(w', f) {
      assert f in w.sinks ==> LockOk(w, f);
    }
  }

  lemma SpawnTouchesNoLock(w: World, l: Label)
    requires l.SendSpawn? || l.JobSpawn?
    ensures NoLockTouched(w, StepSend(w, l))
  {
  }

  lemma SendTouchesNoLock(w: World, l: Label)
    requires IsSendLabel(l)
    ensures NoLockTouched(w, StepSend(w, l))
  {
    if l.SendSpawn? || l.JobSpawn? {
      SpawnTouchesNoLock(w, l);
    } else if l.SinkExit? || l.SenderDrop? {
      ExitTouchesNoLock(w, l);
    } else {
      OnlySpawnsAndExitsTouchSinks(w, l);
    }
  }

  lemma ExitTouchesNoLock(w: World, l: Label)
    requires l.SinkExit? || l.SenderDrop?
    ensures NoLockTouched(w, StepSend(w, l))
  {
  }

  // ---- Emits ----

  // What a step of emit e leaves of the lock of its sink: e's own exactly while e is inside.
  ghost predicate OwnLock(w: World, w': World, e: Id)
    requires e in w.emits && w.emits[e].sink in w.sinks
    requires e in w'.emits && w.emits[e].sink in w'.sinks
  {
    var f := w.emits[e].sink;
    if InLock(w'.emits[e].pc) then w'.sinks[f].lock == Some(e)
    else w'.sinks[f].lock == if w.sinks[f].lock == Some(e) then None else w.sinks[f].lock
  }

  lemma OwnLockKeeps(w: World, w': World, e: Id)
    requires LocksOk(w) && e in w.emits && w.emits[e].sink in w.sinks
    requires OnlyEmit(w, w', e) && OwnLock(w, w', e)
    ensures LocksOk(w')
  {
    forall f | f in w'.sinks ensures LockOk(w', f) {
      assert LockOk(w, f);
    }
  }

  lemma FinishLeavesLock(w: World, e: Id, r: EmitResult)
    requires LocksOk(w) && e in w.emits && w.emits[e].sink in w.sinks && EmitOk(w, e)
    ensures OnlyEmit(w, Finish(w, e, r), e) && OwnLock(w, Finish(w, e, r), e)
  {
    assert LockOk(w, w.emits[e].sink);
  }

  lemma CloseAndFinishLeavesLock(w: World, e: Id, r: EmitResult)
    requires LocksOk(w) && e in w.emits && w.emits[e].sink in w.sinks && EmitOk(w, e)
    ensures var w' := Finish(Close(w, w.emits[e].sink), e, r); OnlyEmit(w, w', e) && OwnLock(w, w', e)
  {
    assert LockOk(w, w.emits[e].sink);
  }

  lemma LockTakesLock(w: World, e: Id)
    requires LocksOk(w) && e in w.emits && w.emits[e].sink in w.sinks && EmitOk(w, e)
    ensures OnlyEmit(w, StepLock(w, e), e) && OwnLock(w, StepLock(w, e), e)
  {
    FinishLeavesLock(w, e, SinkClosed);
  }

  lemma ReadLeavesLock(w: World, e: Id)
    requires LocksOk(w) && e in w.emits && w.emits[e].sink in w.sinks && EmitOk(w, e) && w.emits[e].pc.Holding?
    ensures OnlyEmit(w, StepRead(w, e), e) && OwnLock(w, StepRead(w, e), e)
  {
    FinishLeavesLock(w, e, StoreRefused(TaskNotFound));
  }

  lemma CommitLeavesLock(w: World, e: Id)
    requires LocksOk(w) && e in w.emits && w.emits[e].sink in w.sinks && EmitOk(w, e)
    requires if w.emits[e].op.EmitStatus? then w.emits[e].pc.Holding? else w.emits[e].pc.HasRead?
    ensures OnlyEmit(w, StepCommit(w, e), e) && OwnLock(w, StepCommit(w, e), e)
  {
    match EmitWrite(w.store, w.emits[e], e)
    case Ok(_) =>
    case Err(err) =>
      hide Finish, Close, OwnLock, OnlyEmit;
      FinishLeavesLock(w, e, StoreRefused(err));
      CloseAndFinishLeavesLock(w, e, SinkClosed);
  }

  lemma PublishLeavesLock(w: World, e: Id)
    requires LocksOk(w) && e in w.emits && w.emits[e].sink in w.sinks && EmitOk(w, e) && w.emits[e].pc.Committed?
    ensures OnlyEmit(w, StepPublish(w, e), e) && OwnLock(w, StepPublish(w, e), e)
  {
  }

  lemma CallLeavesLocks(w: World, l: Label)
    requires LocksOk(w) && l.EmitCall?
    ensures LocksOk(StepEmit(w, l))
  {
    forall f | f in w.sinks ensures LockOk(StepEmit(w, l), f) {
      assert LockOk(w, f);
    }
  }

  lemma EmitKeepsLocks(w: World, l: Label)
    requires LocksOk(w) && EmitInv(w) && IsEmitLabel(l)
    ensures LocksOk(StepEmit(w, l))
  {
    if l.EmitCall? {
      CallLeavesLocks(w, l);
    } else if StepEmit(w, l) != w {
      assert l.e in w.emits && w.emits[l.e].sink in w.sinks && EmitOk(w, l.e);
      hide LocksOk, EmitInv, EmitOk, OwnLock, Finish, StepLock, StepRead, StepCommit, StepPublish;
      match l {
        case EmitLock(e) => LockTakesLock(w, e);
        case EmitRead(e) => ReadLeavesLock(w, e);
        case EmitCommit(e) => CommitLeavesLock(w, e);
        case EmitPublish(e) => PublishLeavesLock(w, e);
        case EmitReturn(e) => FinishLeavesLock(w, e, Emitted(w.emits[e].pc.at));
        case EmitFail(e) => FinishLeavesLock(w, e, StoreRefused(Backend));
        case EmitDrop(e) =>
          FinishLeavesLock(w, e, if w.emits[e].pc.Published? then Unanswered(w.emits[e].pc.at) else Dropped);
      }
      OwnLockKeeps(w, StepEmit(w, l), l.e);
    }
  }

  lemma StepKeepsLocks(w: World, l: Label)
    requires Inv(w) && LocksOk(w)
    ensures LocksOk(Step(w, l))
  {
    hide StepSend, StepEmit, StepOther, LocksOk;
    if IsSendLabel(l) {
      SendTouchesNoEmit(w, l);
      SendTouchesNoLock(w, l);
      LocksFrame(w, Step(w, l));
    } else if IsEmitLabel(l) {
      EmitKeepsLocks(w, l);
    } else {
      OtherTouches(w, l);
      LocksFrame(w, Step(w, l));
    }
  }

  lemma {:induction false} ReachableLocks(ls: seq<Label>)
    ensures LocksOk(Run(START, ls))
  {
    if ls != [] {
      hide Step, Inv, LocksOk;
      ReachableLocks(ls[..|ls| - 1]);
      ReachableInv(ls[..|ls| - 1]);
      StepKeepsLocks(Run(START, ls[..|ls| - 1]), ls[|ls| - 1]);
    }
  }

  /** In every schedule a sink's lock is held by a call exactly while that call, on that sink,
      is between taking it and its end: so by one call at a time, and free once each call on
      the sink has returned, failed or been dropped. */
  lemma LockExactly(ls: seq<Label>, f: Id, e: Id)
    requires f in Run(START, ls).sinks
    ensures var w := Run(START, ls);
            w.sinks[f].lock == Some(e) <==> e in w.emits && w.emits[e].sink == f && InLock(w.emits[e].pc)
  {
    hide Run, InLock;
    ReachableLocks(ls);
    ReachableInv(ls);
    var w := Run(START, ls);
    assert LockOk(w, f);
    assert e in w.emits ==> EmitOk(w, e);
  }
}
