// Who wrote the log, whose turn a sink executes, and what a stream has delivered: in
// every schedule, without any assumption.
module Records {
  import opened Wrappers
  import opened Lifecycle
  import opened TaskLog
  import opened AtomicStore
  import opened Protocol
  import opened Footprints
  import opened Safety

  /** A call that has committed an event has got past its commit. */
  ghost predicate AuthorOk(w: World, a: Author) {
    match a
    case ByEmit(e) =>
      && e in w.emits && w.emits[e].sink in w.sinks
      && (w.emits[e].pc.Committed? || w.emits[e].pc.Published? || w.emits[e].pc.Finished?)
    case ByWriter(h) => h in w.writers && (w.writers[h].pc.Won? || w.writers[h].pc.Answered?)
    case BySend(s) => s in w.sends && !w.sends[s].pc.Resolved? && !w.sends[s].pc.Refused?
  }

  ghost predicate AuthorsInv(w: World) {
    forall i | 0 <= i < |w.store.log| :: AuthorOk(w, w.store.log[i].author)
  }

  /** Every sink executes the turn of a send that spawned it, or that was enqueued. */
  ghost predicate OriginsInv(w: World) {
    forall f | f in w.sinks ::
      && w.sinks[f].origin in w.sends
      && (w.sends[w.sinks[f].origin].pc == Spawned(f) || w.sends[w.sinks[f].origin].pc.Enqueued?)
  }

  /** Entry i was committed by an emit on sink f. */
  ghost predicate CommittedOn(w: World, i: nat, f: Id) {
    && i < |w.store.log| && w.store.log[i].author.ByEmit?
    && w.store.log[i].author.id in w.emits && w.emits[w.store.log[i].author.id].sink == f
  }

  function EventsIn(log: seq<Entry>): (r: seq<Event>)
    ensures |r| == |log| && forall i :: 0 <= i < |log| ==> r[i] == log[i].event
  {
    seq(|log|, i requires 0 <= i < |log| => log[i].event)
  }

  /** What one poll sends is a prefix of the new events; it stops short only at the first
      closing event, which is the last one sent. */
  lemma {:induction false} DeliverIsAPrefix(log: seq<Entry>)
    ensures var d := Deliver(log);
            && |d| <= |log| && d == EventsIn(log[..|d|])
            && (forall i :: 0 <= i < |d| - 1 ==> !ClosingEvent(d[i]))
            && (|d| < |log| ==> d != [] && ClosingEvent(d[|d| - 1]))
  {
    if log != [] && !ClosingEvent(log[0].event) {
      DeliverIsAPrefix(log[1..]);
      var d, rest := Deliver(log), Deliver(log[1..]);
      assert d == [log[0].event] + rest;
      forall i | 0 <= i < |d| ensures d[i] == log[i].event {
        if i > 0 {
          assert d[i] == rest[i - 1] == log[1..][..|rest|][i - 1].event;
        }
      }
    }
  }

  /** A stream has delivered exactly the events after its sequence, none missed or
      repeated, and stops right after the first closing one. */
  ghost predicate ReaderOk(st: Store, x: Reader) {
    match x
    case HasSequence(s) => s <= |st.log|
    case Streaming(s, snapshot, seen, last, delivered, open) =>
      && s <= seen <= |st.log| && s <= last <= |st.log|
      && delivered == EventsIn(st.log[s..last])
      && (forall i :: 0 <= i < |delivered| - 1 ==> !ClosingEvent(delivered[i]))
      && (open <==> !ClosesStream(snapshot.status.state)
                    && (delivered != [] ==> !ClosingEvent(delivered[|delivered| - 1])))
    case NotOpened => true
  }

  ghost predicate ReadersInv(w: World) {
    forall r | r in w.readers :: ReaderOk(w.store, w.readers[r])
  }

  ghost predicate RecordsInv(w: World) {
    Inv(w) && AuthorsInv(w) && OriginsInv(w) && ReadersInv(w)
  }

  // ---- One step ----

  lemma StepKeepsEmitSinks(w: World, l: Label)
    ensures forall e | e in w.emits :: e in Step(w, l).emits && Step(w, l).emits[e].sink == w.emits[e].sink
  {
    if IsSendLabel(l) {
      SendTouchesNoEmit(w, l);
    } else if !IsEmitLabel(l) {
      OtherTouches(w, l);
    } else if !l.EmitCall? && StepEmit(w, l) != w {
      EmitIsLocal(w, l);
    }
  }

  function Stepper(l: Label): Author {
    match l
    case SendRecord(s) => BySend(s)
    case SendStart(s) => BySend(s)
    case EmitCommit(e) => ByEmit(e)
    case WriterCommit(h) => ByWriter(h)
    case _ => BySend(0)
  }

  // The log grows by at most one entry, and by the call that steps.
  ghost predicate LogGrowsBy(old_: seq<Entry>, new_: seq<Entry>, a: Author) {
    new_ == old_ || (|new_| == |old_| + 1 && new_[..|old_|] == old_ && new_[|old_|].author == a)
  }

  // Whoever was past its commit stays past it.
  ghost predicate AuthorsStay(w: World, w': World) {
    forall i | 0 <= i < |w.store.log| && AuthorOk(w, w.store.log[i].author) :: AuthorOk(w', w.store.log[i].author)
  }

  lemma AuthorsFrame(w: World, w': World, a: Author)
    requires AuthorsInv(w) && AuthorsStay(w, w')
    requires LogGrowsBy(w.store.log, w'.store.log, a)
    requires w'.store.log != w.store.log ==> AuthorOk(w', a)
    ensures AuthorsInv(w')
  {
    forall i | 0 <= i < |w'.store.log| ensures AuthorOk(w', w'.store.log[i].author) {
      if i < |w.store.log| {
        assert w'.store.log[..|w.store.log|][i] == w.store.log[i];
      }
    }
  }

  predicate Settled(pc: SendPc) {
    pc.Spawned? || pc.Enqueued? || pc.Compensated? || pc.Refused?
  }

  predicate Wrote(pc: SendPc) {
    !pc.Resolved? && !pc.Refused?
  }

  function SenderOf(l: Label): Id {
    match l
    case SendResolve(s, _, _, _) => s
    case SendRecord(s) => s
    case SendLease(s, _) => s
    case SendStart(s) => s
    case SendSpawn(s, _) => s
    case SendEnqueue(s) => s
    case SendCompensate(s, _, _) => s
    case SendFail(s) => s
    case _ => 0
  }

  // At most send s moves, and none goes away.
  ghost predicate OnlySendMoves(w: World, w': World, s: Id) {
    forall t | t in w'.sends || t in w.sends ::
      if t == s then t in w'.sends else t in w.sends && t in w'.sends && w'.sends[t] == w.sends[t]
  }

  lemma SetSendMovesOneSend(w: World, s: Id, pc: SendPc, st: Store)
    requires s in w.sends
    ensures OnlySendMoves(w, SetSend(w, s, pc), s) && OnlySendMoves(w, SetSend(w, s, pc).(store := st), s)
  {
  }

  lemma RecordMovesOneSend(w: World, s: Id)
    requires s in w.sends
    ensures OnlySendMoves(w, StepRecord(w, s), s)
  {
    match RecordMessage(w.store, w.sends[s], s)
    case Ok(st) => SetSendMovesOneSend(w, s, Recorded, st);
    case Err(e) => SetSendMovesOneSend(w, s, SendPc.Failed(e), w.store);
  }

  lemma StartMovesOneSend(w: World, s: Id)
    requires s in w.sends
    ensures OnlySendMoves(w, StepStart(w, s), s)
  {
    match UpdateTaskStatusWithEvents(w.store, Status(Working, None), BySend(s))
    case Ok(x) => SetSendMovesOneSend(w, s, Started, x.store);
    case Err(e) => SetSendMovesOneSend(w, s, SendPc.Failed(e), w.store);
  }

  lemma OtherStepMovesOneSend(w: World, l: Label)
    requires l.SendResolve? || l.SendLease? || l.SendSpawn? || l.SendEnqueue? || l.SendCompensate? || l.SendFail?
    ensures OnlySendMoves(w, StepSend(w, l), l.s)
  {
  }

  /** A send step moves at most its own send. */
  lemma OneSendMoves(w: World, l: Label)
    requires IsSendLabel(l)
    ensures if l.JobSpawn? || l.SinkExit? || l.SenderDrop? then StepSend(w, l).sends == w.sends
            else OnlySendMoves(w, StepSend(w, l), SenderOf(l))
  {
    if l.SendRecord? {
      if StepSend(w, l) != w { RecordMovesOneSend(w, l.s); }
    } else if l.SendStart? {
      if StepSend(w, l) != w { StartMovesOneSend(w, l.s); }
    } else if !l.JobSpawn? && !l.SinkExit? && !l.SenderDrop? {
      OtherStepMovesOneSend(w, l);
    }
  }

  lemma StorageStepMovesForward(w: World, l: Label)
    requires (l.SendRecord? || l.SendStart?) && l.s in w.sends
    ensures l.s in StepSend(w, l).sends && StepSend(w, l).sends[l.s].pc ==
              if l.SendRecord? && w.sends[l.s].pc.Resolved? then
                match RecordMessage(w.store, w.sends[l.s], l.s) case Ok(_) => Recorded case Err(e) => SendPc.Failed(e)
              else if l.SendStart? && w.sends[l.s].pc.Leased? then
                match UpdateTaskStatusWithEvents(w.store, Status(Working, None), BySend(l.s))
                case Ok(_) => Started
                case Err(e) => SendPc.Failed(e)
              else w.sends[l.s].pc
  {
  }

  /** It moves past its write for good, and once settled not at all. */
  lemma SendsMoveForward(w: World, l: Label)
    requires IsSendLabel(l) && SenderOf(l) in w.sends && SenderOf(l) in StepSend(w, l).sends
    ensures var x, x' := w.sends[SenderOf(l)], StepSend(w, l).sends[SenderOf(l)];
            (Wrote(x.pc) ==> Wrote(x'.pc)) && (Settled(x.pc) ==> x'.pc == x.pc)
  {
    if l.SendRecord? || l.SendStart? {
      StorageStepMovesForward(w, l);
      hide StepSend;
    } else if l.JobSpawn? || l.SinkExit? || l.SenderDrop? {
      OneSendMoves(w, l);
      hide StepSend;
    } else {
    }
  }

  lemma SendsStay(w: World, l: Label)
    requires IsSendLabel(l)
    ensures var w' := StepSend(w, l);
            forall s | s in w.sends ::
              && s in w'.sends
              && (Wrote(w.sends[s].pc) ==> Wrote(w'.sends[s].pc))
              && (Settled(w.sends[s].pc) ==> w'.sends[s].pc == w.sends[s].pc)
  {
    OneSendMoves(w, l);
    if SenderOf(l) in w.sends {
      SendsMoveForward(w, l);
    }
  }

  lemma SendWritesAsItself(w: World, l: Label)
    requires Consistent(w.store) && IsSendLabel(l)
    ensures var w' := StepSend(w, l);
            && LogGrowsBy(w.store.log, w'.store.log, Stepper(l))
            && (w'.store.log != w.store.log ==> AuthorOk(w', Stepper(l)))
  {
    if !l.SendRecord? && !l.SendStart? {
      OnlyRecordAndStartTouchTask(w, l);
    }
  }

  lemma SendKeepsAuthors(w: World, l: Label)
    requires RecordsInv(w) && IsSendLabel(l)
    ensures AuthorsInv(StepSend(w, l))
  {
    hide OriginsInv, ReadersInv, DispatchInv, WriterInv, EmitInv, SinkInv;
    var w' := StepSend(w, l);
    SendsStay(w, l);
    SendTouchesNoEmit(w, l);
    SendTouchesSinks(w, l);
    SendTouchesWriters(w, l);
    SendWritesAsItself(w, l);
    AuthorsFrame(w, w', Stepper(l));
  }

  lemma SpawnKeepsOrigins(w: World, l: Label)
    requires OriginsInv(w) && (l.SendSpawn? || l.JobSpawn?)
    ensures OriginsInv(StepSend(w, l))
  {
  }

  lemma ExitKeepsOrigins(w: World, l: Label)
    requires OriginsInv(w) && (l.SinkExit? || l.SenderDrop?)
    ensures OriginsInv(StepSend(w, l))
  {
    ExitTouchesSinks(w, l);
  }

  lemma SendKeepsOrigins(w: World, l: Label)
    requires OriginsInv(w) && IsSendLabel(l)
    ensures OriginsInv(StepSend(w, l))
  {
    if l.SendSpawn? || l.JobSpawn? {
      SpawnKeepsOrigins(w, l);
    } else if l.SinkExit? || l.SenderDrop? {
      ExitKeepsOrigins(w, l);
    } else {
      SendsStay(w, l);
      OnlySpawnsAndExitsTouchSinks(w, l);
    }
  }

  lemma EmitWritesAsItself(w: World, l: Label)
    requires RecordsInv(w) && IsEmitLabel(l)
    ensures var w' := StepEmit(w, l);
            && LogGrowsBy(w.store.log, w'.store.log, Stepper(l))
            && (w'.store.log != w.store.log ==> AuthorOk(w', Stepper(l)))
  {
    if !l.EmitCommit? {
      OnlyCommitTouchesStore(w, l);
    } else if StepEmit(w, l) != w {
      EmitIsLocal(w, l);
      EmitWriteKeeps(w, l.e);
    }
  }

  lemma EmitAuthorsStay(w: World, l: Label)
    requires AuthorsInv(w) && IsEmitLabel(l)
    ensures AuthorsStay(w, StepEmit(w, l))
    ensures OriginsInv(w) ==> OriginsInv(StepEmit(w, l))
  {
    if !l.EmitCall? && StepEmit(w, l) != w {
      EmitIsLocal(w, l);
    }
  }

  lemma EmitKeepsAuthors(w: World, l: Label)
    requires RecordsInv(w) && IsEmitLabel(l)
    ensures AuthorsInv(StepEmit(w, l)) && OriginsInv(StepEmit(w, l))
  {
    EmitWritesAsItself(w, l);
    EmitAuthorsStay(w, l);
    AuthorsFrame(w, StepEmit(w, l), Stepper(l));
  }

  lemma OtherKeepsAuthors(w: World, l: Label)
    requires RecordsInv(w) && !IsSendLabel(l) && !IsEmitLabel(l)
    ensures AuthorsInv(StepOther(w, l)) && OriginsInv(StepOther(w, l))
  {
    var w' := StepOther(w, l);
    OtherTouches(w, l);
    WritersStay(w, l);
    AuthorsFrame(w, w', Stepper(l));
  }

  // Calls that have won stay won.
  ghost predicate WritersKeep(w: World, w': World) {
    forall h | h in w.writers :: h in w'.writers
      && (w.writers[h].pc.Won? || w.writers[h].pc.Answered? ==> w'.writers[h].pc.Won? || w'.writers[h].pc.Answered?)
  }

  lemma WriterCommitWritesAsItself(w: World, h: Id)
    requires h in w.writers && w.writers[h].pc.Ready?
    ensures var w' := StepWriterCommit(w, h);
            && WritersKeep(w, w') && LogGrowsBy(w.store.log, w'.store.log, ByWriter(h))
            && (w'.store.log != w.store.log ==> AuthorOk(w', ByWriter(h)))
  {
    hide ValidateTransition;
  }

  lemma WritersStay(w: World, l: Label)
    requires !IsSendLabel(l) && !IsEmitLabel(l)
    ensures var w' := StepOther(w, l);
            && WritersKeep(w, w') && LogGrowsBy(w.store.log, w'.store.log, Stepper(l))
            && (w'.store.log != w.store.log ==> l.WriterCommit? && AuthorOk(w', Stepper(l)))
  {
    if l.WriterCommit? {
      hide StepWriterCommit;
      if StepOther(w, l) != w {
        WriterCommitWritesAsItself(w, l.h);
      }
    } else {
      hide WriteLease, SetCancelRequested, StepSnapshot, StepPoll, AuthorOk;
      OtherTouches(w, l);
    }
  }

  lemma {:induction false} EventsConcat(log: seq<Entry>, i: nat, j: nat, k: nat)
    requires i <= j <= k <= |log|
    ensures EventsIn(log[i..k]) == EventsIn(log[i..j]) + EventsIn(log[j..k])
  {
    var a, b, c := log[i..k], log[i..j], log[j..k];
    assert a == b + c;
    assert |EventsIn(a)| == |EventsIn(b)| + |EventsIn(c)|;
    forall x | 0 <= x < |a| ensures EventsIn(a)[x] == (EventsIn(b) + EventsIn(c))[x] {
      assert a[x] == if x < |b| then b[x] else c[x - |b|];
    }
  }

  /** What a poll adds to the delivered events is the next stretch of the log. */
  lemma DeliveredGrows(log: seq<Entry>, sequence: nat, last: nat)
    requires sequence <= last <= |log|
    ensures var d := Deliver(log[last..]);
            && last + |d| <= |log|
            && EventsIn(log[sequence..last]) + d == EventsIn(log[sequence..last + |d|])
  {
    hide Deliver, EventsIn;
    var d := Deliver(log[last..]);
    DeliverIsAPrefix(log[last..]);
    assert log[last..][..|d|] == log[last..last + |d|];
    EventsConcat(log, sequence, last, last + |d|);
  }

  lemma PollKeepsReader(w: World, r: Id)
    requires r in w.readers && w.readers[r].Streaming? && w.readers[r].open && ReaderOk(w.store, w.readers[r])
    ensures ReaderOk(w.store, StepPoll(w, r))
    ensures var x := StepPoll(w, r); x.open ==> x.last == |w.store.log|
  {
    hide Deliver, EventsIn;
    var x := w.readers[r];
    DeliverIsAPrefix(w.store.log[x.last..]);
    DeliveredGrows(w.store.log, x.sequence, x.last);
    DeliveredStaysOpen(x.delivered, Deliver(w.store.log[x.last..]));
  }

  lemma DeliveredStaysOpen(a: seq<Event>, d: seq<Event>)
    requires forall i :: 0 <= i < |a| ==> !ClosingEvent(a[i])
    requires forall i :: 0 <= i < |d| - 1 ==> !ClosingEvent(d[i])
    ensures forall i :: 0 <= i < |a + d| - 1 ==> !ClosingEvent((a + d)[i])
  {
  }

  lemma ReadersFrame(w: World, w': World)
    requires ReadersInv(w) && Grows(w.store, w'.store) && w'.readers == w.readers
    ensures ReadersInv(w')
  {
    forall r | r in w'.readers ensures ReaderOk(w'.store, w'.readers[r]) {
      ReaderFrame(w.store, w'.store, w.readers[r]);
    }
  }

  lemma ReaderStepsKeep(w: World, l: Label)
    requires ReadersInv(w) && (l.ReaderSequence? || l.ReaderSnapshot? || l.ReaderPoll?)
    ensures ReadersInv(StepOther(w, l))
  {
    var w' := StepOther(w, l);
    if w' != w && !l.ReaderSequence? {
      assert ReaderOk(w.store, w.readers[l.r]);
      if l.ReaderPoll? {
        PollKeepsReader(w, l.r);
      }
    }
  }

  lemma OtherKeepsReaders(w: World, l: Label)
    requires RecordsInv(w) && !IsSendLabel(l) && !IsEmitLabel(l)
    ensures ReadersInv(StepOther(w, l))
  {
    if l.ReaderSequence? || l.ReaderSnapshot? || l.ReaderPoll? {
      ReaderStepsKeep(w, l);
    } else {
      OnlyReadersTouchReaders(w, l);
      OtherKeepsInv(w, l);
      ReadersFrame(w, StepOther(w, l));
    }
  }

  lemma StepKeepsReaders(w: World, l: Label)
    requires RecordsInv(w)
    ensures ReadersInv(Step(w, l))
  {
    if IsSendLabel(l) {
      SendKeepsInv(w, l);
      SendTouchesNoEmit(w, l);
      ReadersFrame(w, Step(w, l));
    } else if IsEmitLabel(l) {
      EmitKeepsInv(w, l);
      if !l.EmitCall? && StepEmit(w, l) != w {
        EmitIsLocal(w, l);
      }
      ReadersFrame(w, Step(w, l));
    } else {
      OtherKeepsReaders(w, l);
    }
  }

  lemma ReaderFrame(st: Store, st': Store, x: Reader)
    requires ReaderOk(st, x) && Grows(st, st')
    ensures ReaderOk(st', x)
  {
    if x.Streaming? {
      assert st'.log[x.sequence..x.last] == st.log[x.sequence..x.last];
    }
  }

  lemma StepKeepsRecords(w: World, l: Label)
    requires RecordsInv(w)
    ensures RecordsInv(Step(w, l))
  {
    StepKeepsInv(w, l);
    StepKeepsReaders(w, l);
    if IsSendLabel(l) {
      SendKeepsAuthors(w, l);
      SendKeepsOrigins(w, l);
    } else if IsEmitLabel(l) {
      EmitKeepsAuthors(w, l);
    } else {
      OtherKeepsAuthors(w, l);
    }
  }

  lemma {:induction false} RunKeepsRecords(w: World, ls: seq<Label>)
    requires RecordsInv(w)
    ensures RecordsInv(Run(w, ls)) && Grows(w.store, Run(w, ls).store)
  {
    if ls != [] {
      RunKeepsRecords(w, ls[..|ls| - 1]);
      StepKeepsRecords(Run(w, ls[..|ls| - 1]), ls[|ls| - 1]);
      StepKeepsInv(Run(w, ls[..|ls| - 1]), ls[|ls| - 1]);
    }
  }
}
