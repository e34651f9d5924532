// Where the message of a send goes: in every schedule, and under which condition the row's
// history is the messages of the sends that were recorded.
module Messages {
  import opened Wrappers
  import opened Lifecycle
  import opened TaskLog
  import opened AtomicStore
  import opened Protocol
  import opened Footprints
  import opened Safety
  import opened Records
  import opened Runs
  import opened Theorems
  import opened Refusals

  /** Its message was recorded, and no storage call of it has failed since. */
  predicate PastRecord(pc: SendPc) {
    pc.Recorded? || pc.Leased? || pc.Started? || pc.Spawned? || pc.Enqueued? || pc.Compensated?
  }

  /** Step n is what put the message in the row: a new task holds this message and no other,
      and a continuation adds it to those stored, and nothing else. */
  ghost predicate RecordedAt(ls: seq<Label>, s: Id, message: string, followUp: bool, n: nat) {
    && n < |ls| && ls[n] == SendRecord(s)
    && var before, after := Run(START, ls[..n]).store, Run(START, ls[..n + 1]).store;
       if followUp
       then before.task.Some? && after == before.(task := Some(before.task.value.(
                                                    history := before.task.value.history + [message])))
       else && before.task.None?
            && after == Store(Some(Task(Status(Submitted, None), [], [message])),
                              before.log + [Entry(StatusUpdate(Status(Submitted, None)), BySend(s))], false, None)
  }

  ghost predicate MessageRecorded(ls: seq<Label>, s: Id, message: string, followUp: bool) {
    exists n: nat :: RecordedAt(ls, s, message, followUp, n)
  }

  // Step n made the send, with this message.
  ghost predicate MadeAt(ls: seq<Label>, s: Id, message: string, followUp: bool, n: nat) {
    && n < |ls| && s !in Run(START, ls[..n]).sends
    && ls[n].SendResolve? && ls[n].s == s && ls[n].message == message && ls[n].followUp == followUp
  }

  ghost predicate Made(ls: seq<Label>, s: Id, message: string, followUp: bool) {
    exists n: nat :: MadeAt(ls, s, message, followUp, n)
  }

  // ---- A send keeps the message it was made with ----

  // The send is there, with the message it had.
  ghost predicate SaysTheSame(w: World, w': World, s: Id) {
    && s in w.sends && s in w'.sends
    && w'.sends[s].message == w.sends[s].message && w'.sends[s].followUp == w.sends[s].followUp
  }

  lemma StorageStepSays(w: World, s: Id)
    requires s in w.sends
    ensures SaysTheSame(w, w, s) && SaysTheSame(w, StepRecord(w, s), s) && SaysTheSame(w, StepStart(w, s), s)
  {
    hide RecordMessage, UpdateTaskStatusWithEvents;
  }

  lemma OwnStepSays(w: World, l: Label, s: Id)
    requires IsSendLabel(l) && s in w.sends && SenderOf(l) == s
    ensures SaysTheSame(w, StepSend(w, l), s)
  {
    if l.SendRecord? || l.SendStart? {
      hide SaysTheSame, StepRecord, StepStart;
      StorageStepSays(w, s);
    } else {
      hide ResolveTarget, WriteLease;
    }
  }

  lemma StepSays(w: World, l: Label, s: Id)
    requires s in w.sends
    ensures SaysTheSame(w, Step(w, l), s)
  {
    hide StepSend, StepEmit, StepOther;
    if !IsSendLabel(l) {
      SendsUntouched(w, l);
    } else {
      OneSendMoves(w, l);
      if SenderOf(l) == s && !l.JobSpawn? && !l.SinkExit? && !l.SenderDrop? {
        OwnStepSays(w, l, s);
      }
    }
  }

  lemma LastStep(ls: seq<Label>)
    requires ls != []
    ensures Run(START, ls) == Step(Run(START, ls[..|ls| - 1]), ls[|ls| - 1])
  {
  }

  lemma {:induction false} RunSays(w: World, ls: seq<Label>, s: Id)
    requires s in w.sends
    ensures SaysTheSame(w, Run(w, ls), s)
  {
    if ls != [] {
      hide Step;
      RunSays(w, ls[..|ls| - 1], s);
      StepSays(Run(w, ls[..|ls| - 1]), ls[|ls| - 1], s);
    }
  }

  /** In every continuation of a schedule a send has the message it had. */
  lemma MessagesStay(ls: seq<Label>, more: seq<Label>, s: Id)
    requires s in Run(START, ls).sends
    ensures SaysTheSame(Run(START, ls), Run(START, ls + more), s)
  {
    hide Run, SaysTheSame;
    RunConcat(START, ls, more);
    RunSays(Run(START, ls), more, s);
  }

  // ---- Where it goes ----

  lemma MadeBySomeStep(w: World, l: Label, s: Id)
    requires s !in w.sends && s in Step(w, l).sends
    ensures var x := Step(w, l).sends[s];
            && l.SendResolve? && l.s == s && l.message == x.message && l.followUp == x.followUp
            && !PastRecord(x.pc)
  {
    if !IsSendLabel(l) {
      SendsUntouched(w, l);
    } else {
      OneSendMoves(w, l);
      if l.SendResolve? {
        assert Step(w, l) == StepSend(w, l);
      } else {
        NobodyElseComes(w, l, s);
      }
    }
  }

  lemma NobodyElseComes(w: World, l: Label, s: Id)
    requires IsSendLabel(l) && !l.SendResolve? && s !in w.sends
    ensures s !in StepSend(w, l).sends
  {
    if l.SendRecord? || l.SendStart? {
      if StepSend(w, l) != w {
        OneSendMoves(w, l);
      }
      hide StepRecord, StepStart;
    } else if l.JobSpawn? || l.SinkExit? || l.SenderDrop? {
      OneSendMoves(w, l);
      hide StepSend;
    } else {
      hide WriteLease;
    }
  }

  // Only the record step brings a send past its record.
  lemma OnlyRecordRecords(w: World, l: Label, s: Id)
    requires s in w.sends && !PastRecord(w.sends[s].pc)
    requires s in Step(w, l).sends && PastRecord(Step(w, l).sends[s].pc)
    ensures l == SendRecord(s) && w.sends[s].pc.Resolved?
  {
    if !IsSendLabel(l) {
      SendsUntouched(w, l);
    } else if l.SendRecord? || l.SendStart? {
      hide StepSend;
      OneSendMoves(w, l);
      if l.s == s {
        StorageStepMovesForward(w, l);
      }
    } else {
      OneSendMoves(w, l);
      if SenderOf(l) == s && !l.JobSpawn? && !l.SinkExit? && !l.SenderDrop? {
        OtherStepsRecordNothing(w, l);
      }
      hide StepSend;
    }
  }

  lemma OtherStepsRecordNothing(w: World, l: Label)
    requires IsSendLabel(l) && !l.SendRecord? && !l.SendStart? && !l.JobSpawn? && !l.SinkExit? && !l.SenderDrop?
    requires l.s in w.sends && !PastRecord(w.sends[l.s].pc)
    ensures l.s in StepSend(w, l).sends && !PastRecord(StepSend(w, l).sends[l.s].pc)
  {
  }

  lemma RecordPuts(w: World, s: Id)
    requires Consistent(w.store) && s in w.sends && w.sends[s].pc.Resolved?
    requires PastRecord(Step(w, SendRecord(s)).sends[s].pc)
    ensures var x, st := w.sends[s], Step(w, SendRecord(s)).store;
            if x.followUp
            then w.store.task.Some?
                 && st == w.store.(task := Some(w.store.task.value.(
                                     history := w.store.task.value.history + [x.message])))
            else && w.store.task.None?
                 && st == Store(Some(Task(Status(Submitted, None), [], [x.message])),
                                w.store.log + [Entry(StatusUpdate(Status(Submitted, None)), BySend(s))], false, None)
  {
    assert Step(w, SendRecord(s)) == StepRecord(w, s);
  }

  lemma StaysRecorded(before: seq<Label>, after: seq<Label>, s: Id, message: string, followUp: bool)
    requires before <= after && MessageRecorded(before, s, message, followUp)
    ensures MessageRecorded(after, s, message, followUp)
  {
    hide Run;
    var n: nat :| RecordedAt(before, s, message, followUp, n);
    assert after[..n] == before[..n] && after[..n + 1] == before[..n + 1];
    assert RecordedAt(after, s, message, followUp, n);
  }

  lemma StaysMade(before: seq<Label>, after: seq<Label>, s: Id, message: string, followUp: bool)
    requires before <= after && Made(before, s, message, followUp)
    ensures Made(after, s, message, followUp)
  {
    hide Run;
    var n: nat :| MadeAt(before, s, message, followUp, n);
    assert after[..n] == before[..n];
    assert MadeAt(after, s, message, followUp, n);
  }

  /** In every schedule, a send has the message it was made with; and once it is past its
      record, that message was stored: as the only one of a new task, or after those of the
      task that it continues. */
  lemma {:induction false} MessageReachesTheTask(ls: seq<Label>, s: Id)
    requires s in Run(START, ls).sends
    ensures var x := Run(START, ls).sends[s];
            && Made(ls, s, x.message, x.followUp)
            && (PastRecord(x.pc) ==> MessageRecorded(ls, s, x.message, x.followUp))
  {
    if ls != [] {
      var prev, l := ls[..|ls| - 1], ls[|ls| - 1];
      var w := Run(START, prev);
      assert ls[..|ls|] == ls;
      hide Step, PastRecord, Run;
      assert Run(START, ls) == Step(w, l) by { LastStep(ls); }
      if s !in w.sends {
        MadeBySomeStep(w, l, s);
        var x := Run(START, ls).sends[s];
        assert MadeAt(ls, s, x.message, x.followUp, |prev|);
      } else {
        MessageReachesTheTask(prev, s);
        StepSays(w, l, s);
        var x := w.sends[s];
        StaysMade(prev, ls, s, x.message, x.followUp);
        if PastRecord(x.pc) {
          StaysRecorded(prev, ls, s, x.message, x.followUp);
        } else if PastRecord(Run(START, ls).sends[s].pc) {
          OnlyRecordRecords(w, l, s);
          ReachesInv(prev);
          RecordPuts(w, s);
          assert ls[..|prev| + 1] == ls;
          assert RecordedAt(ls, s, x.message, x.followUp, |prev|);
        }
      }
    }
  }

  /** And it is stored once. */
  lemma MessageRecordedOnce(ls: seq<Label>, s: Id, m: nat, n: nat, a: string, b: string, f: bool, g: bool)
    requires RecordedAt(ls, s, a, f, m) && RecordedAt(ls, s, b, g, n)
    ensures m == n
  {
    if m < n {
      RecordedBefore(ls, s, m, n, a, b, f, g);
    } else if n < m {
      RecordedBefore(ls, s, n, m, b, a, g, f);
    }
  }

  lemma RecordedBefore(ls: seq<Label>, s: Id, m: nat, n: nat, a: string, b: string, f: bool, g: bool)
    requires RecordedAt(ls, s, a, f, m) && RecordedAt(ls, s, b, g, n)
    ensures m >= n
  {
    hide RecordedAt, Run, Step, Wrote;
    RecordingNeedsResolved(ls, s, a, f, m);
    RecordingNeedsResolved(ls, s, b, g, n);
    if m < n {
      WroteFromThen(ls, s, m + 1, n);
    }
  }

  lemma WroteFromThen(ls: seq<Label>, s: Id, m: nat, n: nat)
    requires m <= n <= |ls| && s in Run(START, ls[..m]).sends && Wrote(Run(START, ls[..m]).sends[s].pc)
    ensures s in Run(START, ls[..n]).sends && Wrote(Run(START, ls[..n]).sends[s].pc)
  {
    hide Run, Wrote;
    assert ls[..n] == ls[..m] + ls[m..n];
    RunConcat(START, ls[..m], ls[m..n]);
    WroteStays(Run(START, ls[..m]), ls[m..n], s);
  }

  lemma RecordingNeedsResolved(ls: seq<Label>, s: Id, message: string, followUp: bool, n: nat)
    requires RecordedAt(ls, s, message, followUp, n)
    ensures n < |ls| && s in Run(START, ls[..n]).sends && Run(START, ls[..n]).sends[s].pc.Resolved?
    ensures !Wrote(Run(START, ls[..n]).sends[s].pc)
    ensures s in Run(START, ls[..n + 1]).sends && Wrote(Run(START, ls[..n + 1]).sends[s].pc)
  {
    assert ls[..n + 1][..n] == ls[..n];
    var w := Run(START, ls[..n]);
    assert Run(START, ls[..n + 1]) == Step(w, SendRecord(s));
    hide Run;
    if followUp {
      assert |Step(w, SendRecord(s)).store.task.value.history| != |w.store.task.value.history|;
    }
    assert Step(w, SendRecord(s)) != w;
    assert Step(w, SendRecord(s)) == StepRecord(w, s);
    hide Step, RecordMessage;
  }

  lemma {:induction false} WroteStays(w: World, ls: seq<Label>, s: Id)
    requires s in w.sends && Wrote(w.sends[s].pc)
    ensures s in Run(w, ls).sends && Wrote(Run(w, ls).sends[s].pc)
  {
    if ls != [] {
      hide Step, Wrote;
      WroteStays(w, ls[..|ls| - 1], s);
      StepKeepsWrote(Run(w, ls[..|ls| - 1]), ls[|ls| - 1], s);
    }
  }

  lemma StepKeepsWrote(w: World, l: Label, s: Id)
    requires s in w.sends && Wrote(w.sends[s].pc)
    ensures s in Step(w, l).sends && Wrote(Step(w, l).sends[s].pc)
  {
    if IsSendLabel(l) {
      SendsStay(w, l);
      hide StepSend;
    } else {
      SendsUntouched(w, l);
    }
  }

  // ---- Whether it stays there ----

  // The message that a step puts in the row, if it is the record step of a send.
  function NewMessages(w: World, l: Label): seq<string> {
    if l.SendRecord? && l.s in w.sends && w.sends[l.s].pc.Resolved? && RecordMessage(w.store, w.sends[l.s], l.s).Ok?
    then [w.sends[l.s].message]
    else []
  }

  /** The messages of the sends that were recorded, in the order of their records. */
  ghost function Sent(ls: seq<Label>): seq<string> {
    if ls == [] then [] else Sent(ls[..|ls| - 1]) + NewMessages(Run(START, ls[..|ls| - 1]), ls[|ls| - 1])
  }

  function History(st: Store): seq<string> {
    match st.task
    case None => []
    case Some(t) => t.history
  }

  /** After every prefix of the schedule the row has the messages of the sends recorded in it. */
  ghost predicate HistoryThroughout(ls: seq<Label>) {
    forall n | 0 <= n <= |ls| :: History(Run(START, ls[..n]).store) == Sent(ls[..n])
  }

  /** An artifact commit that the store accepts has read the messages that are stored. */
  ghost predicate ReadsHistory(w: World, l: Label) {
    l.EmitCommit? && l.e in w.emits && w.emits[l.e].op.EmitArtifact? && w.emits[l.e].pc.HasRead?
    && w.emits[l.e].sink in w.sinks && w.store.task.Some? && !Terminal(w.store) ==>
      w.emits[l.e].pc.task.history == w.store.task.value.history
  }

  lemma RecordAdds(w: World, s: Id)
    requires Consistent(w.store)
    ensures History(Step(w, SendRecord(s)).store) == History(w.store) + NewMessages(w, SendRecord(s))
  {
    if s in w.sends && w.sends[s].pc.Resolved? {
      assert Step(w, SendRecord(s)) == StepRecord(w, s);
    }
  }

  lemma StartAdds(w: World, s: Id)
    ensures History(Step(w, SendStart(s)).store) == History(w.store)
  {
    hide ValidateTransition;
    if s in w.sends && w.sends[s].pc.Leased? {
      assert Step(w, SendStart(s)) == StepStart(w, s);
    }
  }

  lemma WriterAdds(w: World, h: Id)
    ensures History(Step(w, WriterCommit(h)).store) == History(w.store)
  {
    hide ValidateTransition;
    if h in w.writers && w.writers[h].pc.Ready? {
      assert Step(w, WriterCommit(h)) == StepWriterCommit(w, h);
    }
  }

  lemma CommitAdds(w: World, e: Id)
    ensures History(Step(w, EmitCommit(e)).store) == History(w.store) <==> ReadsHistory(w, EmitCommit(e))
  {
    hide ValidateTransition, MergeArtifact;
    if Step(w, EmitCommit(e)) != w {
      assert Step(w, EmitCommit(e)) == StepCommit(w, e);
    }
  }

  lemma StepAdds(w: World, l: Label)
    requires Consistent(w.store)
    ensures History(Step(w, l).store) == History(w.store) + NewMessages(w, l) <==> ReadsHistory(w, l)
  {
    hide Step, NewMessages, History;
    match l
    case SendRecord(s) => RecordAdds(w, s);
    case SendStart(s) =>
      OnlyRecordsAdd(w, l);
      StartAdds(w, s);
    case EmitCommit(e) =>
      OnlyRecordsAdd(w, l);
      CommitAdds(w, e);
    case WriterCommit(h) =>
      OnlyRecordsAdd(w, l);
      WriterAdds(w, h);
    case _ =>
      OnlyRecordsAdd(w, l);
      SameTaskSameHistory(w, l);
  }

  lemma OnlyRecordsAdd(w: World, l: Label)
    requires !l.SendRecord?
    ensures History(w.store) + NewMessages(w, l) == History(w.store)
  {
    assert NewMessages(w, l) == [];
  }

  lemma SameTaskSameHistory(w: World, l: Label)
    requires !l.SendRecord? && !l.SendStart? && !l.EmitCommit? && !l.WriterCommit?
    ensures History(Step(w, l).store) == History(w.store)
  {
    hide StepSend, StepEmit, StepOther;
    if IsSendLabel(l) {
      OnlyRecordAndStartTouchTask(w, l);
    } else if IsEmitLabel(l) {
      OnlyCommitTouchesStore(w, l);
    } else {
      OtherTouches(w, l);
    }
  }

  /** The row has the messages of the recorded sends, in their order and nothing else,
      throughout a schedule exactly if each artifact commit that the store accepts has read
      the messages that are stored. */
  lemma {:induction false} HistoryExactly(ls: seq<Label>)
    ensures HistoryThroughout(ls) <==> EachStep(ReadsHistory, ls)
  {
    if ls == [] {
      assert ls[..0] == [];
    } else {
      var prev, l := ls[..|ls| - 1], ls[|ls| - 1];
      HistoryExactly(prev);
      EachStepBefore(ReadsHistory, ls);
      HistoryBefore(ls);
      if HistoryThroughout(prev) {
        assert prev[..|prev|] == prev;
        ReachesInv(prev);
        StepAdds(Run(START, prev), l);
      }
    }
  }

  lemma HistoryBefore(ls: seq<Label>)
    requires ls != []
    ensures HistoryThroughout(ls) <==>
              HistoryThroughout(ls[..|ls| - 1]) && History(Run(START, ls).store) == Sent(ls)
  {
    hide Run, Sent, History;
    var prev := ls[..|ls| - 1];
    assert ls[..|ls|] == ls;
    if HistoryThroughout(ls) {
      forall n | 0 <= n <= |prev| ensures History(Run(START, prev[..n]).store) == Sent(prev[..n]) {
        assert prev[..n] == ls[..n];
      }
    } else if HistoryThroughout(prev) && History(Run(START, ls).store) == Sent(ls) {
      forall n | 0 <= n <= |ls| ensures History(Run(START, ls[..n]).store) == Sent(ls[..n]) {
        assert n < |ls| ==> prev[..n] == ls[..n];
      }
    }
  }
}
