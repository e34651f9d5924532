// When a sink's executor is gone, and with it the sender of `yielded`.
module Exits {
  import opened Wrappers
  import opened Lifecycle
  import opened TaskLog
  import opened AtomicStore
  import opened Protocol
  import opened Footprints
  import opened Safety
  import opened Records
  import opened Theorems

  /** Once the executor and its clones are gone every call on the sink has ended; and the sender
      of `yielded` goes only after them, and without having fired. */
  ghost predicate ExitOk(w: World, f: Id)
    requires f in w.sinks
  {
    && (!w.sinks[f].live ==> AllEnded(w, f))
    && (w.sinks[f].dropped ==> !w.sinks[f].live && w.sinks[f].yielded.None?)
  }

  ghost predicate AllEnded(w: World, f: Id) {
    forall e | e in w.emits && w.emits[e].sink == f :: w.emits[e].pc.Finished?
  }

  ghost predicate ExitsOk(w: World) {
    forall f | f in w.sinks :: ExitOk(w, f)
  }

  lemma ExitKeeps(w: World, l: Label)
    requires ExitsOk(w) && (l.SinkExit? || l.SenderDrop?)
    ensures ExitsOk(StepSend(w, l))
  {
    forall f | f in StepSend(w, l).sinks ensures ExitOk(StepSend(w, l), f) {
      assert ExitOk(w, f);
    }
  }

  lemma SpawnKeepsExits(w: World, l: Label)
    requires ExitsOk(w) && (l.SendSpawn? || l.JobSpawn?)
    ensures ExitsOk(StepSend(w, l))
  {
    var w' := StepSend(w, l);
    forall f | f in w'.sinks ensures ExitOk(w', f) {
      assert f in w.sinks ==> ExitOk(w, f);
    }
  }

  lemma SameSinksKeepExits(w: World, w': World)
    requires ExitsOk(w) && w'.sinks == w.sinks && w'.emits == w.emits
    ensures ExitsOk(w')
  {
    forall f | f in w'.sinks ensures ExitOk(w', f) {
      assert ExitOk(w, f);
    }
  }

  lemma SendKeepsExits(w: World, l: Label)
    requires ExitsOk(w) && IsSendLabel(l)
    ensures ExitsOk(StepSend(w, l))
  {
    hide ExitsOk;
    if l.SinkExit? || l.SenderDrop? {
      ExitKeeps(w, l);
    } else if l.SendSpawn? || l.JobSpawn? {
      SpawnKeepsExits(w, l);
    } else {
      SendTouchesNoEmit(w, l);
      OnlySpawnsAndExitsTouchSinks(w, l);
      SameSinksKeepExits(w, StepSend(w, l));
    }
  }

  lemma CallKeepsExits(w: World, l: Label)
    requires ExitsOk(w) && l.EmitCall?
    ensures ExitsOk(StepEmit(w, l))
  {
    forall f | f in w.sinks ensures ExitOk(StepEmit(w, l), f) {
      assert ExitOk(w, f);
    }
  }

  /** A call that steps has not ended, so its sink is live and has its sender. */
  lemma LocalKeepsExits(w: World, w': World, e: Id)
    requires ExitsOk(w) && Local(w, w', e)
    requires w.emits[e].pc.Finished? ==> w' == w
    ensures ExitsOk(w')
  {
    if w' != w {
      assert ExitOk(w, w.emits[e].sink);
      forall f | f in w'.sinks ensures ExitOk(w', f) {
        assert ExitOk(w, f);
      }
    }
  }

  lemma EndedStays(w: World, l: Label)
    requires IsEmitLabel(l) && !l.EmitCall? && l.e in w.emits && w.emits[l.e].pc.Finished?
    ensures StepEmit(w, l) == w
  {
  }

  lemma EmitKeepsExits(w: World, l: Label)
    requires ExitsOk(w) && IsEmitLabel(l)
    ensures ExitsOk(StepEmit(w, l))
  {
    hide ExitsOk, Local;
    if l.EmitCall? {
      CallKeepsExits(w, l);
    } else if StepEmit(w, l) != w {
      EmitIsLocal(w, l);
      assert l.e in w.emits by { LocalIsThere(w, StepEmit(w, l), l.e); }
      if w.emits[l.e].pc.Finished? {
        EndedStays(w, l);
      }
      hide StepEmit;
      LocalKeepsExits(w, StepEmit(w, l), l.e);
    }
  }

  lemma LocalIsThere(w: World, w': World, e: Id)
    requires Local(w, w', e)
    ensures e in w.emits
  {
  }

  lemma StepKeepsExits(w: World, l: Label)
    requires ExitsOk(w)
    ensures ExitsOk(Step(w, l))
  {
    hide StepSend, StepEmit, StepOther, ExitsOk;
    if IsSendLabel(l) {
      SendKeepsExits(w, l);
    } else if IsEmitLabel(l) {
      EmitKeepsExits(w, l);
    } else {
      OtherTouches(w, l);
      SameSinksKeepExits(w, StepOther(w, l));
    }
  }

  lemma {:induction false} ReachableExits(ls: seq<Label>)
    ensures ExitsOk(Run(START, ls))
  {
    if ls != [] {
      hide Step, ExitsOk;
      ReachableExits(ls[..|ls| - 1]);
      StepKeepsExits(Run(START, ls[..|ls| - 1]), ls[|ls| - 1]);
    }
  }

  /** In every schedule: a sink's executor can go exactly when all its calls have ended, and then
      none has still to end; the sender of `yielded` can go exactly when it is gone and has not
      fired, and then it never fires. */
  lemma GoesExactly(ls: seq<Label>, more: seq<Label>, f: Id)
    requires f in Run(START, ls).sinks
    ensures var w := Run(START, ls);
            && f in Step(w, SinkExit(f)).sinks && f in Step(w, SenderDrop(f)).sinks
            && (Step(w, SinkExit(f)).sinks[f].live <==> w.sinks[f].live && !AllEnded(w, f))
            && (!w.sinks[f].live ==> AllEnded(w, f))
            && (Step(w, SenderDrop(f)).sinks[f].dropped <==> !w.sinks[f].live && w.sinks[f].yielded.None?)
    ensures Run(START, ls).sinks[f].dropped ==>
              f in Run(START, ls + more).sinks && Run(START, ls + more).sinks[f].yielded.None?
  {
    hide Run, Step, AllEnded;
    ReachableExits(ls);
    ReachableExits(ls + more);
    assert ExitOk(Run(START, ls), f);
    GoesNow(Run(START, ls), f);
    RunConcat(START, ls, more);
    RunKeepsDropped(Run(START, ls), more, f);
    if Run(START, ls).sinks[f].dropped {
      assert ExitOk(Run(START, ls + more), f);
    }
  }

  lemma GoesNow(w: World, f: Id)
    requires f in w.sinks && ExitOk(w, f)
    ensures f in Step(w, SinkExit(f)).sinks && f in Step(w, SenderDrop(f)).sinks
    ensures Step(w, SinkExit(f)).sinks[f].live <==> w.sinks[f].live && !AllEnded(w, f)
    ensures Step(w, SenderDrop(f)).sinks[f].dropped <==> !w.sinks[f].live && w.sinks[f].yielded.None?
  {
    ExitsNow(w, f);
    DropsNow(w, f);
    hide StepSend;
  }

  lemma ExitsNow(w: World, f: Id)
    requires f in w.sinks
    ensures StepSend(w, SinkExit(f)) == if AllEnded(w, f) then SetSink(w, f, w.sinks[f].(live := false)) else w
  {
  }

  lemma DropsNow(w: World, f: Id)
    requires f in w.sinks
    ensures StepSend(w, SenderDrop(f)) ==
              if !w.sinks[f].live && w.sinks[f].yielded.None? then SetSink(w, f, w.sinks[f].(dropped := true)) else w
  {
  }

  lemma {:induction false} RunKeepsDropped(w: World, ls: seq<Label>, f: Id)
    requires f in w.sinks
    ensures f in Run(w, ls).sinks && (w.sinks[f].dropped ==> Run(w, ls).sinks[f].dropped)
  {
    if ls != [] {
      hide Step;
      RunKeepsDropped(w, ls[..|ls| - 1], f);
      StepKeepsDropped(Run(w, ls[..|ls| - 1]), ls[|ls| - 1], f);
    }
  }

  lemma StepKeepsDropped(w: World, l: Label, f: Id)
    requires f in w.sinks
    ensures f in Step(w, l).sinks && (w.sinks[f].dropped ==> Step(w, l).sinks[f].dropped)
  {
    hide StepSend, StepEmit, StepOther;
    if IsSendLabel(l) {
      if l.SinkExit? || l.SenderDrop? {
        ExitKeepsDropped(w, l, f);
      } else if l.SendSpawn? || l.JobSpawn? {
        SpawnKeepsDropped(w, l, f);
      } else {
        OnlySpawnsAndExitsTouchSinks(w, l);
      }
    } else if !IsEmitLabel(l) {
      OtherTouches(w, l);
    } else {
      EmitKeepsDropped(w, l, f);
    }
  }

  lemma EmitKeepsDropped(w: World, l: Label, f: Id)
    requires f in w.sinks && IsEmitLabel(l)
    ensures f in StepEmit(w, l).sinks && StepEmit(w, l).sinks[f].dropped == w.sinks[f].dropped
  {
    if !l.EmitCall? && StepEmit(w, l) != w {
      EmitIsLocal(w, l);
      hide StepEmit;
    }
  }

  lemma ExitKeepsDropped(w: World, l: Label, f: Id)
    requires f in w.sinks && (l.SinkExit? || l.SenderDrop?)
    ensures f in StepSend(w, l).sinks && (w.sinks[f].dropped ==> StepSend(w, l).sinks[f].dropped)
  {
    if l.f in w.sinks {
      ExitsNow(w, l.f);
      DropsNow(w, l.f);
      hide StepSend;
    }
  }

  lemma SpawnKeepsDropped(w: World, l: Label, f: Id)
    requires f in w.sinks && (l.SendSpawn? || l.JobSpawn?)
    ensures f in StepSend(w, l).sinks && StepSend(w, l).sinks[f] == w.sinks[f]
  {
  }
}
