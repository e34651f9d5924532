// What makes artifact commits clean: at most one sink family writes to the task at a time.
//
// The lock keeps the other clones of a sink out of its read-merge-write, and the store's
// terminal check keeps the framework's terminals out; nothing keeps out a turn that starts,
// or an executor that runs, beside it. The in-flight check of a follow-up aims at that.
module SingleFamily {
  import opened Wrappers
  import opened Lifecycle
  import opened TaskLog
  import opened AtomicStore
  import opened Protocol
  import opened Footprints
  import opened Safety
  import opened Runs
  import opened Replaying

  ghost predicate Quiet(w: World) {
    forall f | f in w.sinks :: !w.sinks[f].live
  }

  /** The hypothesis on one step: a turn starts, and a sink is created, only once every
      earlier sink is gone. A send whose start is refused is no violation. */
  ghost predicate Alone(w: World, l: Label) {
    && (l.SendStart? && Step(w, l).store != w.store ==> Quiet(w))
    && (Step(w, l).sinks.Keys != w.sinks.Keys ==> Quiet(w))
  }

  ghost predicate Exclusive(w: World, ls: seq<Label>) {
    ls != [] ==>
      && Exclusive(w, ls[..|ls| - 1])
      && Alone(Run(w, ls[..|ls| - 1]), ls[|ls| - 1])
  }

  // ---- The invariant ----

  ghost predicate OneFamily(w: World) {
    && (forall f, g | f in w.sinks && g in w.sinks && w.sinks[f].live && w.sinks[g].live :: f == g)
    && (forall e | e in w.emits && !w.emits[e].pc.Finished? ::
          w.emits[e].sink in w.sinks && w.sinks[w.emits[e].sink].live)
  }

  /** A read that is still to be written back is current, or the store will refuse it. */
  ghost predicate ReadsAreFresh(w: World) {
    forall e | e in w.emits && w.emits[e].pc.HasRead? && !Terminal(w.store) ::
      w.store.task.Some? && ViewOf(w.emits[e].pc.task) == ViewOf(w.store.task.value)
  }

  ghost predicate FamilyInv(w: World) {
    Inv(w) && OneFamily(w) && ReadsAreFresh(w)
  }

  // ---- One step ----

  lemma SpawnKeepsOneFamily(w: World, w': World, s: Id, f: Id)
    requires OneFamily(w) && Quiet(w) && w'.emits == w.emits && w'.sinks == w.sinks[f := NewSink(s)] && f !in w.sinks
    ensures OneFamily(w')
  {
  }

  lemma ExitKeepsOneFamily(w: World, f: Id)
    requires OneFamily(w)
    ensures OneFamily(StepSend(w, SinkExit(f)))
  {
  }

  lemma DropKeepsOneFamily(w: World, f: Id)
    requires OneFamily(w)
    ensures OneFamily(StepSend(w, SenderDrop(f)))
  {
  }

  lemma SendKeepsOneFamily(w: World, l: Label)
    requires OneFamily(w) && IsSendLabel(l) && Alone(w, l)
    ensures OneFamily(StepSend(w, l))
  {
    var w' := StepSend(w, l);
    SendTouchesNoEmit(w, l);
    if l.SinkExit? {
      ExitKeepsOneFamily(w, l.f);
    } else if l.SenderDrop? {
      DropKeepsOneFamily(w, l.f);
    } else if l.SendSpawn? || l.JobSpawn? {
      if w' != w {
        assert l.f in w'.sinks.Keys && l.f !in w.sinks.Keys;
        SpawnKeepsOneFamily(w, w', l.s, l.f);
      }
    } else {
      OnlySpawnsAndExitsTouchSinks(w, l);
    }
  }

  lemma RecordKeepsReads(w: World, s: Id)
    requires FamilyInv(w) && s in w.sends
    ensures ReadsAreFresh(StepRecord(w, s))
  {
  }

  lemma StartKeepsReads(w: World, s: Id)
    requires FamilyInv(w) && s in w.sends && (StepStart(w, s).store != w.store ==> Quiet(w))
    ensures ReadsAreFresh(StepStart(w, s))
  {
    if StepStart(w, s).store != w.store {
      assert forall e | e in w.emits :: w.emits[e].pc.Finished?;
    }
  }

  lemma SendKeepsReads(w: World, l: Label)
    requires FamilyInv(w) && IsSendLabel(l) && Alone(w, l)
    ensures ReadsAreFresh(StepSend(w, l))
  {
    SendTouchesNoEmit(w, l);
    if l.SendRecord? {
      if StepSend(w, l) != w { RecordKeepsReads(w, l.s); }
    } else if l.SendStart? {
      if StepSend(w, l) != w { StartKeepsReads(w, l.s); }
    } else {
      OnlyRecordAndStartTouchTask(w, l);
    }
  }

  // ---- Emits ----

  lemma EmitKeepsOneFamily(w: World, l: Label)
    requires OneFamily(w) && IsEmitLabel(l)
    ensures OneFamily(StepEmit(w, l))
  {
    if !l.EmitCall? && StepEmit(w, l) != w {
      EmitIsLocal(w, l);
    }
  }

  /** A read is current when it is made; no other emit step touches the reads. */
  lemma EmitKeepsReads(w: World, l: Label)
    requires ReadsAreFresh(w) && IsEmitLabel(l) && !l.EmitCommit?
    ensures ReadsAreFresh(StepEmit(w, l))
  {
    var w' := StepEmit(w, l);
    OnlyCommitTouchesStore(w, l);
    if !l.EmitCall? && w' != w {
      EmitIsLocal(w, l);
      assert w'.emits[l.e].pc.HasRead? ==> l.EmitRead? && w.store.task == Some(w'.emits[l.e].pc.task);
    }
  }

  /** The lock: no two emits of the live family are inside it. */
  lemma LockExcludes(w: World, e: Id, x: Id)
    requires EmitInv(w) && OneFamily(w) && e in w.emits && x in w.emits
    requires InLock(w.emits[e].pc) && InLock(w.emits[x].pc)
    ensures e == x
  {
    assert EmitOk(w, e) && EmitOk(w, x);
  }

  lemma CommitKeepsReads(w: World, e: Id)
    requires FamilyInv(w) && e in w.emits && w.emits[e].sink in w.sinks
    requires if w.emits[e].op.EmitStatus? then w.emits[e].pc.Holding? else w.emits[e].pc.HasRead?
    ensures ReadsAreFresh(StepCommit(w, e))
  {
    var w' := StepCommit(w, e);
    CommitIsLocal(w, e);
    assert !w'.emits[e].pc.HasRead?;
    forall y | y in w'.emits && w'.emits[y].pc.HasRead? ensures false {
      LockExcludes(w, e, y);
    }
  }

  lemma EmitStepKeepsReads(w: World, l: Label)
    requires FamilyInv(w) && IsEmitLabel(l)
    ensures ReadsAreFresh(StepEmit(w, l))
  {
    if !l.EmitCommit? {
      EmitKeepsReads(w, l);
    } else if StepEmit(w, l) != w {
      CommitKeepsReads(w, l.e);
    }
  }

  // ---- The rest ----

  lemma WriterCommitKeepsReads(w: World, h: Id)
    requires FamilyInv(w) && h in w.writers && w.writers[h].pc.Ready?
    ensures ReadsAreFresh(StepWriterCommit(w, h))
  {
    assert WriterOk(w, h);
  }

  lemma OtherKeepsFamily(w: World, l: Label)
    requires FamilyInv(w) && !IsSendLabel(l) && !IsEmitLabel(l)
    ensures OneFamily(StepOther(w, l)) && ReadsAreFresh(StepOther(w, l))
  {
    OtherTouches(w, l);
    if l.WriterCommit? && StepOther(w, l) != w {
      WriterCommitKeepsReads(w, l.h);
    }
  }

  lemma StepKeepsFamilyInv(w: World, l: Label)
    requires FamilyInv(w) && Alone(w, l)
    ensures FamilyInv(Step(w, l))
  {
    StepKeepsInv(w, l);
    if IsSendLabel(l) {
      SendKeepsOneFamily(w, l);
      SendKeepsReads(w, l);
    } else if IsEmitLabel(l) {
      EmitKeepsOneFamily(w, l);
      EmitStepKeepsReads(w, l);
    } else {
      OtherKeepsFamily(w, l);
    }
  }

  // ---- What the hypothesis gives ----

  lemma FreshReadIsClean(w: World, l: Label)
    requires FamilyInv(w)
    ensures CleanStep(w, l)
  {
  }

  /** Under the hypothesis every artifact commit writes back what the log replays to. */
  lemma {:induction false} ExclusiveIsClean(ls: seq<Label>)
    requires Exclusive(START, ls)
    ensures FamilyInv(Run(START, ls)) && EachStep(CleanStep, ls)
  {
    if ls != [] {
      hide Step, CleanStep, FamilyInv, Alone, EachStep;
      var before, l := ls[..|ls| - 1], ls[|ls| - 1];
      ExclusiveIsClean(before);
      FreshReadIsClean(Run(START, before), l);
      StepKeepsFamilyInv(Run(START, before), l);
      EachStepBefore(CleanStep, ls);
    }
  }
}
