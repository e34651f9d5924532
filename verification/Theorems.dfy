// The guarantees of the protocol, for every schedule `ls` from the start, and for every
// continuation `more` of it.
module Theorems {
  import opened Wrappers
  import opened Lifecycle
  import opened TaskLog
  import opened AtomicStore
  import opened Protocol
  import opened Footprints
  import opened Safety
  import opened Records
  import opened Commits

  lemma ReachableInv(ls: seq<Label>)
    ensures RecordsInv(Run(START, ls))
  {
    RunKeepsRecords(START, ls);
  }

  lemma LaterState(ls: seq<Label>, more: seq<Label>)
    ensures var w, w' := Run(START, ls), Run(START, ls + more);
            RecordsInv(w) && RecordsInv(w') && w' == Run(w, more) && Grows(w.store, w'.store)
  {
    ReachableInv(ls);
    RunConcat(START, ls, more);
    RunKeepsRecords(Run(START, ls), more);
  }

  // ---- Terminals ----

  /** A terminal event is the last event of the log, for ever; the task says what it says
      and never leaves it. So there is at most one, whoever raced for it. */
  lemma OneTerminal(ls: seq<Label>, more: seq<Label>, i: nat)
    requires i < |Run(START, ls).store.log| && TerminalEvent(Run(START, ls).store.log[i].event)
    ensures var w, w' := Run(START, ls), Run(START, ls + more);
            && i == |w.store.log| - 1
            && w'.store.log == w.store.log
            && w.store.task.Some? && w'.store.task.Some? && ViewOf(w'.store.task.value) == ViewOf(w.store.task.value)
            && w'.store.log[i].event == StatusUpdate(w'.store.task.value.status)
  {
    hide Run, Step;
    LaterState(ls, more);
    TerminalEntry(Run(START, ls).store, i + 1);
  }

  /** The log never shrinks or changes: what an accepted call committed stays committed. */
  lemma LogIsAppendOnly(ls: seq<Label>, more: seq<Label>)
    ensures Run(START, ls).store.log <= Run(START, ls + more).store.log
  {
    hide Run, Step;
    LaterState(ls, more);
  }

  /** What a framework terminal hands back, when it won and when it lost and re-read, is the
      task's one terminal, now and for ever, as the row was at some moment. */
  lemma FrameworkAnswersWithTheTerminal(ls: seq<Label>, more: seq<Label>, h: Id)
    requires h in Run(START, ls).writers && Run(START, ls).writers[h].pc.Answered?
    ensures var w, w' := Run(START, ls), Run(START, ls + more);
            var t := w.writers[h].pc.task;
            && IsTerminal(t.status.state)
            && Terminal(w'.store) && ViewOf(t) == ViewOf(w'.store.task.value)
            && w'.store.log != [] && w'.store.log[|w'.store.log| - 1].event == StatusUpdate(t.status)
            && WasStored(ls, Read(t))
  {
    hide Run, Step, WasStored;
    LaterState(ls, more);
    HeldWasStored(ls, AtWriter(h));
    assert WriterOk(Run(START, ls), h);
  }

  /** At most one dispatch carries the terminal, over all sinks and framework writers, and
      it carries the task as committed. */
  lemma OneTerminalDispatch(ls: seq<Label>, i: nat, j: nat)
    requires var d := Run(START, ls).dispatches;
             i < |d| && j < |d| && TerminalEvent(d[i].event) && TerminalEvent(d[j].event)
    ensures i == j
    ensures var w := Run(START, ls);
            && IsTheTerminal(w.store, w.dispatches[i].task)
            && WasStored(ls, Wrote(Commit(w.dispatches[i].at, w.dispatches[i].task)))
  {
    hide Run, Step, WasStored;
    var w := Run(START, ls);
    ReachableInv(ls);
    assert DispatchOk(w, w.dispatches[i]) && DispatchOk(w, w.dispatches[j]);
    TerminalEntry(w.store, w.dispatches[i].at);
    TerminalEntry(w.store, w.dispatches[j].at);
    HeldWasStored(ls, AtDispatch(i));
    WrittenIsARow(ls, Commit(w.dispatches[i].at, w.dispatches[i].task));
    TerminalStays(ls, w.dispatches[i].task);
  }

  // ---- Sinks ----

  lemma StepKeepsClosed(w: World, l: Label, f: Id)
    requires f in w.sinks
    ensures f in Step(w, l).sinks
    ensures w.sinks[f].isClosed ==> Step(w, l).sinks[f].isClosed
    ensures w.sinks[f].yielded.Some? ==> Step(w, l).sinks[f].yielded == w.sinks[f].yielded
  {
    hide StepSend, StepOther;
    if IsSendLabel(l) {
      SendTouchesSinks(w, l);
    } else if !IsEmitLabel(l) {
      OtherTouches(w, l);
    } else if !l.EmitCall? && StepEmit(w, l) != w {
      EmitIsLocal(w, l);
      hide StepEmit;
    }
  }

  lemma {:induction false} RunKeepsClosed(w: World, ls: seq<Label>, f: Id)
    requires f in w.sinks
    ensures f in Run(w, ls).sinks
    ensures w.sinks[f].isClosed ==> Run(w, ls).sinks[f].isClosed
    ensures w.sinks[f].yielded.Some? ==> Run(w, ls).sinks[f].yielded == w.sinks[f].yielded
  {
    if ls != [] {
      RunKeepsClosed(w, ls[..|ls| - 1], f);
      StepKeepsClosed(Run(w, ls[..|ls| - 1]), ls[|ls| - 1], f);
    }
  }

  /** A closed sink stays closed, and the task has reached its terminal. */
  lemma ClosedSinkMeansTerminal(ls: seq<Label>, more: seq<Label>, f: Id)
    requires f in Run(START, ls).sinks && Run(START, ls).sinks[f].isClosed
    ensures Terminal(Run(START, ls).store)
    ensures f in Run(START, ls + more).sinks && Run(START, ls + more).sinks[f].isClosed
  {
    hide Run, Step;
    LaterState(ls, more);
    assert SinkOk(Run(START, ls), f);
    RunKeepsClosed(Run(START, ls), more, f);
  }

  /** What `yielded` carries is the row that a commit of this very sink stored, a terminal or
      an interrupt, and never changes. */
  lemma YieldedIsDurable(ls: seq<Label>, more: seq<Label>, f: Id)
    requires f in Run(START, ls).sinks && Run(START, ls).sinks[f].yielded.Some?
    ensures var c := Run(START, ls).sinks[f].yielded.value;
            var w' := Run(START, ls + more);
            && f in w'.sinks && w'.sinks[f].yielded == Some(c)
            && 1 <= c.at <= |w'.store.log| && w'.store.log[c.at - 1].event == StatusUpdate(c.task.status)
            && (IsTerminal(c.task.status.state) || ClientHeld(c.task.status.state))
            && WasStored(ls, Wrote(c)) && CommittedOn(w', c.at - 1, f)
  {
    hide Run, Step, WasStored, CommittedOn, RecordsInv, SinkOk, Grows;
    HeldWasStored(ls, AtSink(f));
    YieldedByItsSink(ls + more);
    LaterState(ls, more);
    RunKeepsClosed(Run(START, ls), more, f);
    YieldIsLogged(ls + more, f);
  }

  lemma YieldIsLogged(ls: seq<Label>, f: Id)
    requires f in Run(START, ls).sinks && Run(START, ls).sinks[f].yielded.Some?
    ensures var c, st := Run(START, ls).sinks[f].yielded.value, Run(START, ls).store;
            && 1 <= c.at <= |st.log| && st.log[c.at - 1].event == StatusUpdate(c.task.status)
            && (IsTerminal(c.task.status.state) || ClientHeld(c.task.status.state))
  {
    hide Run, Step;
    ReachableInv(ls);
    assert SinkOk(Run(START, ls), f);
  }

  /** An emit that returned Ok has its event in the log at the sequence it returned: for a
      status, that status with its message; for an artifact, that artifact with both its flags. */
  lemma OkEmitIsLogged(ls: seq<Label>, more: seq<Label>, e: Id)
    requires e in Run(START, ls).emits && Run(START, ls).emits[e].pc.Finished?
    requires Run(START, ls).emits[e].pc.result.Emitted?
    ensures var x := Run(START, ls).emits[e];
            match x.op
            case EmitStatus(status) =>
              Logged(Run(START, ls + more).store, x.pc.result.at, StatusUpdate(status), ByEmit(e))
            case EmitArtifact(a, append, lastChunk) =>
              Logged(Run(START, ls + more).store, x.pc.result.at, ArtifactUpdate(a, append, lastChunk), ByEmit(e))
  {
    hide Run, Step;
    LaterState(ls, more);
    assert EmitOk(Run(START, ls), e);
  }

  /** No emit and no framework writer has two entries in the log; a send has its creation and
      its start. */
  ghost predicate WritesOnce(log: seq<Entry>) {
    forall i, j | 0 <= i < j < |log| && log[i].author == log[j].author :: log[i].author.BySend?
  }

  lemma OneMoreEntry(log: seq<Entry>, log': seq<Entry>, a: Author)
    requires WritesOnce(log) && LogGrowsBy(log, log', a)
    requires log' != log && !a.BySend? ==> forall i | 0 <= i < |log| :: log[i].author != a
    ensures WritesOnce(log')
  {
    forall i, j | 0 <= i < j < |log'| && log'[i].author == log'[j].author ensures log'[i].author.BySend? {
      assert log' != log ==> log'[..|log|][i] == log'[i];
      assert log' != log && j < |log| ==> log'[..|log|][j] == log'[j];
    }
  }

  lemma StepWritesOnce(w: World, l: Label)
    requires RecordsInv(w) && WritesOnce(w.store.log)
    ensures WritesOnce(Step(w, l).store.log)
  {
    var w' := Step(w, l);
    if IsSendLabel(l) {
      SendWritesAsItself(w, l);
    } else if IsEmitLabel(l) {
      EmitWritesAsItself(w, l);
      if w'.store.log != w.store.log {
        NotYetWritten(w, l);
      }
    } else {
      WritersStay(w, l);
      if w'.store.log != w.store.log {
        NotYetWritten(w, l);
      }
    }
    OneMoreEntry(w.store.log, w'.store.log, Stepper(l));
  }

  lemma NotYetWritten(w: World, l: Label)
    requires RecordsInv(w) && Step(w, l).store.log != w.store.log && !IsSendLabel(l)
    ensures forall i | 0 <= i < |w.store.log| :: w.store.log[i].author != Stepper(l)
  {
    if IsEmitLabel(l) {
      if !l.EmitCommit? {
        OnlyCommitTouchesStore(w, l);
      }
    } else if !l.WriterCommit? {
      OtherTouches(w, l);
    }
    forall i | 0 <= i < |w.store.log| ensures w.store.log[i].author != Stepper(l) {
      assert AuthorOk(w, w.store.log[i].author);
    }
  }

  /** In every schedule, every emit and every framework writer has at most one event in the
      log. */
  lemma {:induction false} CallsWriteOnce(ls: seq<Label>)
    ensures WritesOnce(Run(START, ls).store.log)
  {
    if ls != [] {
      var before := ls[..|ls| - 1];
      CallsWriteOnce(before);
      ReachableInv(before);
      StepWritesOnce(Run(START, before), ls[|ls| - 1]);
    }
  }

  // ---- Sends ----

  /** A refused send has written nothing, and nothing it could still do writes. */
  lemma RefusedSendWritesNothing(ls: seq<Label>, s: Id, l: Label)
    requires s in Run(START, ls).sends && Run(START, ls).sends[s].pc.Refused?
    requires l in {SendRecord(s), SendStart(s), SendEnqueue(s), SendFail(s)} || (l.SendLease? && l.s == s)
          || (l.SendSpawn? && l.s == s) || (l.SendCompensate? && l.s == s) || (l.JobSpawn? && l.s == s)
    ensures Step(Run(START, ls), l) == Run(START, ls)
    ensures forall i :: 0 <= i < |Run(START, ls).store.log| ==> Run(START, ls).store.log[i].author != BySend(s)
    ensures forall f :: f in Run(START, ls).sinks ==> Run(START, ls).sinks[f].origin != s
  {
    ReachableInv(ls);
    var w := Run(START, ls);
    forall i | 0 <= i < |w.store.log| ensures w.store.log[i].author != BySend(s) {
      assert AuthorOk(w, w.store.log[i].author);
    }
  }

  /** A send whose registration or enqueue failed never gets an executor; once its
      compensating write has answered, the task is terminal. */
  lemma CompensatedSendHasNoExecutor(ls: seq<Label>, more: seq<Label>, s: Id)
    requires s in Run(START, ls).sends && Run(START, ls).sends[s].pc.Compensated?
    ensures var w' := Run(START, ls + more); var h := Run(START, ls).sends[s].pc.writer;
            && (forall f :: f in w'.sinks ==> w'.sinks[f].origin != s)
            && (h in w'.writers && (w'.writers[h].pc.Won? || w'.writers[h].pc.Answered?) ==> Terminal(w'.store))
  {
    hide Run, Step;
    LaterState(ls, more);
    var w, w' := Run(START, ls), Run(START, ls + more);
    RunKeepsSettled(w, more, s);
    var h := w.sends[s].pc.writer;
    if h in w'.writers {
      assert WriterOk(w', h);
    }
  }

  lemma {:induction false} RunKeepsSettled(w: World, ls: seq<Label>, s: Id)
    requires s in w.sends && Settled(w.sends[s].pc)
    ensures s in Run(w, ls).sends && Run(w, ls).sends[s].pc == w.sends[s].pc
  {
    if ls != [] {
      var before, l := Run(w, ls[..|ls| - 1]), ls[|ls| - 1];
      RunKeepsSettled(w, ls[..|ls| - 1], s);
      if IsSendLabel(l) {
        SendsStay(before, l);
      } else if IsEmitLabel(l) {
        if !l.EmitCall? && StepEmit(before, l) != before {
          EmitIsLocal(before, l);
        }
      } else {
        OtherTouches(before, l);
      }
    }
  }
}
