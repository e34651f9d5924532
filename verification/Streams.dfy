// What streams deliver (open_send_stream, open_subscribe_stream, task_event_stream).
module Streams {
  import opened Wrappers
  import opened Lifecycle
  import opened TaskLog
  import opened AtomicStore
  import opened Protocol
  import opened Footprints
  import opened Safety
  import opened Records
  import opened Runs
  import opened Replaying
  import opened Theorems

  /** Moment n of the schedule is when the open stream r took its snapshot, or shows the same. */
  ghost predicate TakenAt(ls: seq<Label>, r: Id, n: nat) {
    && n <= |ls|
    && var w, st := Run(START, ls), Run(START, ls[..n]).store;
       && r in w.readers && w.readers[r].Streaming?
       && st.task == Some(w.readers[r].snapshot) && |st.log| == w.readers[r].seen
  }

  lemma OnlySnapshotsTakeSnapshots(w: World, l: Label)
    ensures var w' := Step(w, l);
            forall r | r in w'.readers && w'.readers[r].Streaming? && !l.ReaderSnapshot? ::
              && r in w.readers && w.readers[r].Streaming?
              && w'.readers[r].snapshot == w.readers[r].snapshot
              && w'.readers[r].seen == w.readers[r].seen && w'.readers[r].sequence == w.readers[r].sequence
  {
    if IsSendLabel(l) {
      SendTouchesNoEmit(w, l);
    } else if IsEmitLabel(l) {
      if !l.EmitCall? && StepEmit(w, l) != w {
        EmitIsLocal(w, l);
      }
    } else {
      OnlyReadersTouchReaders(w, l);
    }
  }

  lemma TakesTheRow(w: World, r: Id)
    requires r in Step(w, ReaderSnapshot(r)).readers && Step(w, ReaderSnapshot(r)).readers[r].Streaming?
    requires r in w.readers ==> !w.readers[r].Streaming?
    ensures var x := Step(w, ReaderSnapshot(r)).readers[r]; w.store.task == Some(x.snapshot) && |w.store.log| == x.seen
  {
  }

  lemma OthersKeepTheirs(w: World, l: Label, r: Id)
    requires r in Step(w, l).readers && Step(w, l).readers[r].Streaming?
    requires l.ReaderSnapshot? ==> l.r != r || (r in w.readers && w.readers[r].Streaming?)
    ensures r in w.readers && w.readers[r].Streaming?
    ensures Step(w, l).readers[r].snapshot == w.readers[r].snapshot && Step(w, l).readers[r].seen == w.readers[r].seen
  {
    if !l.ReaderSnapshot? {
      OnlySnapshotsTakeSnapshots(w, l);
    }
  }

  /** Every open stream has taken its snapshot at some moment. */
  lemma {:induction false} SnapshotWasTaken(ls: seq<Label>, r: Id) returns (n: nat)
    requires r in Run(START, ls).readers && Run(START, ls).readers[r].Streaming?
    ensures TakenAt(ls, r, n)
  {
    if ls == [] {
      assert false;
    } else {
      hide Step;
      var before, l := ls[..|ls| - 1], ls[|ls| - 1];
      var w := Run(START, before);
      if l == ReaderSnapshot(r) && !(r in w.readers && w.readers[r].Streaming?) {
        n := |ls| - 1;
        TakesTheRow(w, r);
      } else {
        OthersKeepTheirs(w, l, r);
        n := SnapshotWasTaken(before, r);
        assert before[..n] == ls[..n];
      }
    }
  }

  // The log that the snapshot goes with.
  lemma SnapshotLog(ls: seq<Label>, r: Id, n: nat)
    requires TakenAt(ls, r, n)
    ensures var st, x := Run(START, ls).store, Run(START, ls).readers[r];
            && 0 < x.seen <= |st.log| && Run(START, ls[..n]).store.log == st.log[..x.seen]
  {
    hide Run, RecordsInv;
    LogsGrow(ls, n);
    LoggedExactlyIfStored(ls[..n]);
  }

  lemma LoggedExactlyIfStored(ls: seq<Label>)
    ensures Run(START, ls).store.task.Some? <==> Run(START, ls).store.log != []
  {
    hide Run;
    ReachableInv(ls);
  }

  lemma SnapshotCatchesUp(st: Store, x: Reader)
    requires x.Streaming? && x.seen <= |st.log| && ViewOf(x.snapshot) == Replay(st.log[..x.seen])
    requires RowIsReplay(st) && st.task.Some?
    ensures ReplayOver(ViewOf(x.snapshot), st.log[x.seen..]) == ViewOf(st.task.value)
  {
    hide ReplayOver, LegalLog;
    ReplayOverConcat(CREATED, st.log[..x.seen], st.log[x.seen..]);
    assert st.log == st.log[..x.seen] + st.log[x.seen..];
  }

  /** A view of the task that a client keeps up to date from the events of its stream. */
  function Follow(v: View, events: seq<Event>): View {
    if events == [] then v else Apply(Follow(v, events[..|events| - 1]), events[|events| - 1])
  }

  lemma {:induction false} FollowReplays(v: View, log: seq<Entry>)
    ensures Follow(v, EventsIn(log)) == ReplayOver(v, log)
  {
    if log != [] {
      var n := |log| - 1;
      FollowReplays(v, log[..n]);
      assert EventsIn(log)[..n] == EventsIn(log[..n]);
    }
  }

  lemma DeliveriesFollow(st: Store, x: Reader)
    requires x.Streaming? && ReaderOk(st, x) && x.seen <= x.last && ViewOf(x.snapshot) == Replay(st.log[..x.seen])
    ensures |x.delivered| == x.last - x.sequence
    ensures Follow(ViewOf(x.snapshot), x.delivered[x.seen - x.sequence..]) == Replay(st.log[..x.last])
  {
    hide ReplayOver, Follow;
    var before, after := st.log[..x.seen], st.log[x.seen..x.last];
    assert st.log[..x.last] == before + after;
    ReplayOverConcat(CREATED, before, after);
    FollowReplays(ViewOf(x.snapshot), after);
    assert x.delivered[x.seen - x.sequence..] == EventsIn(after);
  }

  /** No event is missed: the snapshot is the replay of the first `seen` events, the stream
      delivers exactly the events after `sequence <= seen`, in order, and a client that starts
      from the snapshot and follows the events delivered after `seen` has the replay of all
      that is delivered: the current task, once it has caught up. The row has to be the replay
      of its log at two moments only, n, when the snapshot was taken, and now. */
  lemma StreamMissesNothing(ls: seq<Label>, r: Id, n: nat)
    requires TakenAt(ls, r, n)
    requires RowIsReplay(Run(START, ls[..n]).store) && RowIsReplay(Run(START, ls).store)
    ensures var st, x := Run(START, ls).store, Run(START, ls).readers[r];
            && x.sequence <= x.seen <= |st.log| && x.sequence <= x.last <= |st.log|
            && ViewOf(x.snapshot) == Replay(st.log[..x.seen])
            && x.delivered == EventsIn(st.log[x.sequence..x.last])
            && st.task.Some? && ReplayOver(ViewOf(x.snapshot), st.log[x.seen..]) == ViewOf(st.task.value)
    ensures var st, x := Run(START, ls).store, Run(START, ls).readers[r];
            x.seen <= x.last ==>
              var view := Follow(ViewOf(x.snapshot), x.delivered[x.seen - x.sequence..]);
              view == Replay(st.log[..x.last]) && (x.last == |st.log| ==> view == ViewOf(st.task.value))
  {
    hide Run, Step, ReplayOver, Replay, EventsIn, Follow;
    var st, x := Run(START, ls).store, Run(START, ls).readers[r];
    ReachableInv(ls);
    SnapshotLog(ls, r, n);
    assert ReaderOk(st, x);
    SnapshotCatchesUp(st, x);
    if x.seen <= x.last {
      DeliveriesFollow(st, x);
      assert st.log[..|st.log|] == st.log;
    }
  }

  lemma PollStep(w: World, r: Id)
    requires r in w.readers && w.readers[r].Streaming? && w.readers[r].open && w.readers[r].last <= |w.store.log|
    ensures Step(w, ReaderPoll(r)) == w.(readers := w.readers[r := StepPoll(w, r)])
  {
    hide Deliver;
  }

  /** How a stream comes about: it reads the sequence first, and then the row, if there is a task;
      it is open unless that row ends it. */
  lemma OpensOnTheRow(w: World, r: Id)
    ensures r !in w.readers ==>
              Step(w, ReaderSequence(r)) == w.(readers := w.readers[r := HasSequence(|w.store.log|)])
    ensures r in w.readers && w.readers[r].HasSequence? ==>
              Step(w, ReaderSnapshot(r)) == w.(readers := w.readers[r :=
                match w.store.task
                case None => NotOpened
                case Some(t) => Streaming(w.readers[r].sequence, t, |w.store.log|, w.readers[r].sequence, [],
                                          !EndsStream(t.status.state))])
  {
  }

  /** After these a stream has nothing more to wait for: the task is over, or it needs input. */
  predicate EndsStream(s: TaskState) {
    s in {Completed, TaskState.Failed, Canceled, Rejected, InputRequired}
  }

  /** A poll leaves an open stream with nothing pending, or ends it on a closing event. */
  lemma PollCatchesUp(ls: seq<Label>, r: Id)
    requires r in Run(START, ls).readers && Run(START, ls).readers[r].Streaming? && Run(START, ls).readers[r].open
    ensures var w := Run(START, ls); var w' := Step(w, ReaderPoll(r));
            && r in w'.readers && w'.readers[r].Streaming?
            && if w'.readers[r].open then w'.readers[r].last == |w.store.log|
               else
                 && w'.readers[r].delivered != []
                 && var last := w'.readers[r].delivered[|w'.readers[r].delivered| - 1];
                    last.StatusUpdate? && EndsStream(last.status.state)
  {
    hide Run, Step, Deliver, EventsIn;
    ReachableInv(ls);
    var w := Run(START, ls);
    assert ReaderOk(w.store, w.readers[r]);
    PollStep(w, r);
    PollKeepsReader(w, r);
  }

  /** In every schedule, a stream is open exactly if neither its snapshot nor an event that it
      has delivered ends it; and it delivers nothing after such an event. */
  lemma OpenExactly(ls: seq<Label>, r: Id)
    requires r in Run(START, ls).readers && Run(START, ls).readers[r].Streaming?
    ensures var x := Run(START, ls).readers[r];
            && (x.open <==> !EndsStream(x.snapshot.status.state)
                            && forall e | e in x.delivered && e.StatusUpdate? :: !EndsStream(e.status.state))
            && forall i | 0 <= i < |x.delivered| - 1 && x.delivered[i].StatusUpdate? ::
                 !EndsStream(x.delivered[i].status.state)
  {
    hide Run, ReaderOk;
    ReachableInv(ls);
    assert ReaderOk(Run(START, ls).store, Run(START, ls).readers[r]);
    ReaderIsOpen(Run(START, ls).store, Run(START, ls).readers[r]);
  }

  lemma ReaderIsOpen(st: Store, x: Reader)
    requires x.Streaming? && ReaderOk(st, x)
    ensures x.open <==> !EndsStream(x.snapshot.status.state)
                        && forall e | e in x.delivered && e.StatusUpdate? :: !EndsStream(e.status.state)
    ensures forall i | 0 <= i < |x.delivered| - 1 && x.delivered[i].StatusUpdate? ::
              !EndsStream(x.delivered[i].status.state)
  {
    hide EventsIn;
    assert x.delivered != [] ==> x.delivered[|x.delivered| - 1] in x.delivered;
  }

  // ---- A stream over time ----

  /** What becomes of a reader: it keeps its sequence and its snapshot, and what it has
      delivered. */
  ghost predicate GoesOn(x: Reader, x': Reader) {
    match x
    case HasSequence(s) => x' == x || x'.NotOpened? || (x'.Streaming? && x'.sequence == s)
    case Streaming(s, snapshot, seen, last, delivered, _) =>
      && x'.Streaming? && x'.sequence == s && x'.snapshot == snapshot && x'.seen == seen
      && last <= x'.last && delivered <= x'.delivered
    case NotOpened => x' == x
  }

  lemma StepKeepsReader(w: World, l: Label, r: Id)
    requires r in w.readers
    ensures r in Step(w, l).readers && GoesOn(w.readers[r], Step(w, l).readers[r])
  {
    hide Deliver;
    if IsSendLabel(l) {
      SendTouchesNoEmit(w, l);
    } else if IsEmitLabel(l) {
      if !l.EmitCall? && StepEmit(w, l) != w {
        EmitIsLocal(w, l);
      }
    } else {
      OnlyReadersTouchReaders(w, l);
    }
  }

  lemma {:induction false} RunKeepsReader(w: World, ls: seq<Label>, r: Id)
    requires r in w.readers
    ensures r in Run(w, ls).readers && GoesOn(w.readers[r], Run(w, ls).readers[r])
  {
    if ls != [] {
      hide Step;
      RunKeepsReader(w, ls[..|ls| - 1], r);
      StepKeepsReader(Run(w, ls[..|ls| - 1]), ls[|ls| - 1], r);
    }
  }

  // A stream that was not there yet starts from what is logged by then, or later.
  ghost predicate StartsAfter(w: World, r: Id, n: nat) {
    r in w.readers ==> match w.readers[r]
                       case HasSequence(s) => n <= s
                       case Streaming(s, _, _, _, _, _) => n <= s
                       case NotOpened => true
  }

  lemma OnlyReaderSequenceAddsReaders(w: World, l: Label, r: Id)
    requires r !in w.readers && r in Step(w, l).readers
    ensures Step(w, l).readers[r] == HasSequence(|w.store.log|)
  {
    if IsSendLabel(l) {
      SendTouchesNoEmit(w, l);
    } else if IsEmitLabel(l) {
      if !l.EmitCall? && StepEmit(w, l) != w {
        EmitIsLocal(w, l);
      }
    } else {
      OnlyReadersTouchReaders(w, l);
    }
  }

  lemma {:induction false} NewReaderStartsAfter(w: World, ls: seq<Label>, r: Id)
    requires RecordsInv(w) && r !in w.readers
    ensures StartsAfter(Run(w, ls), r, |w.store.log|)
  {
    if ls != [] {
      hide Step;
      var before, l := Run(w, ls[..|ls| - 1]), ls[|ls| - 1];
      NewReaderStartsAfter(w, ls[..|ls| - 1], r);
      if r in before.readers {
        StepKeepsReader(before, l, r);
      } else if r in Step(before, l).readers {
        RunKeepsRecords(w, ls[..|ls| - 1]);
        OnlyReaderSequenceAddsReaders(before, l, r);
      }
    }
  }

  lemma StepKeepsOrigin(w: World, l: Label, f: Id)
    requires f in w.sinks
    ensures f in Step(w, l).sinks && Step(w, l).sinks[f].origin == w.sinks[f].origin
  {
    if IsSendLabel(l) {
      SendTouchesSinks(w, l);
    } else if !IsEmitLabel(l) {
      OtherTouches(w, l);
    } else if !l.EmitCall? && StepEmit(w, l) != w {
      EmitIsLocal(w, l);
    }
  }

  lemma {:induction false} RunKeepsOrigin(w: World, ls: seq<Label>, f: Id)
    requires f in w.sinks
    ensures f in Run(w, ls).sinks && Run(w, ls).sinks[f].origin == w.sinks[f].origin
  {
    if ls != [] {
      hide Step;
      RunKeepsOrigin(w, ls[..|ls| - 1], f);
      StepKeepsOrigin(Run(w, ls[..|ls| - 1]), ls[|ls| - 1], f);
    }
  }

  lemma {:induction false} RunKeepsEmitSinks(w: World, ls: seq<Label>, e: Id)
    requires e in w.emits
    ensures e in Run(w, ls).emits && Run(w, ls).emits[e].sink == w.emits[e].sink
  {
    if ls != [] {
      hide Step;
      RunKeepsEmitSinks(w, ls[..|ls| - 1], e);
      StepKeepsEmitSinks(Run(w, ls[..|ls| - 1]), ls[|ls| - 1]);
    }
  }

  // ---- The executor's events on its send's stream ----

  /** What a sink commits lies after everything logged before the sink was there. */
  lemma SinkCommitsLater(ls: seq<Label>, more: seq<Label>, f: Id, i: nat)
    requires f !in Run(START, ls).sinks && CommittedOn(Run(START, ls + more), i, f)
    ensures |Run(START, ls).store.log| <= i
  {
    hide Run, Step;
    LaterState(ls, more);
    var w, w' := Run(START, ls), Run(START, ls + more);
    if i < |w.store.log| {
      assert w.store.log[i] == w'.store.log[i];
      assert AuthorOk(w, w.store.log[i].author);
      RunKeepsEmitSinks(w, more, w.store.log[i].author.id);
    }
  }

  /** Delivered, in its place; or still to come; or the stream was closed before it. */
  ghost predicate Reaches(st: Store, x: Reader, i: nat)
    requires x.Streaming? && i < |st.log| && ReaderOk(st, x)
  {
    && x.sequence <= i
    && (if i < x.last then x.delivered[i - x.sequence] == st.log[i].event
        else x.open || ClosesStream(x.snapshot.status.state)
             || (x.sequence < x.last && ClosingEvent(st.log[x.last - 1].event)))
  }

  lemma EntryReaches(st: Store, x: Reader, i: nat)
    requires x.Streaming? && ReaderOk(st, x) && x.sequence <= i < |st.log|
    ensures Reaches(st, x, i)
  {
    var stretch := st.log[x.sequence..x.last];
    if i < x.last {
      assert stretch[i - x.sequence] == st.log[i];
    } else if x.delivered != [] {
      assert stretch[|stretch| - 1] == st.log[x.last - 1];
    }
  }

  /** In every schedule, every event of an executor reaches each stream that had read its
      sequence before the executor's sink was there. */
  lemma SendStreamSeesItsExecutor(ls: seq<Label>, more: seq<Label>, r: Id, f: Id, i: nat)
    requires r in Run(START, ls).readers && f !in Run(START, ls).sinks
    requires var w' := Run(START, ls + more);
             CommittedOn(w', i, f) && r in w'.readers && w'.readers[r].Streaming?
    ensures var w' := Run(START, ls + more);
            ReaderOk(w'.store, w'.readers[r]) && Reaches(w'.store, w'.readers[r], i)
  {
    hide Run, Step, Reaches, EventsIn;
    LaterState(ls, more);
    var w, w' := Run(START, ls), Run(START, ls + more);
    SinkCommitsLater(ls, more, f, i);
    RunKeepsReader(w, more, r);
    assert ReaderOk(w.store, w.readers[r]) && ReaderOk(w'.store, w'.readers[r]);
    EntryReaches(w'.store, w'.readers[r], i);
  }

  // The stream has shown a closing status of entry j: as an event, or as its snapshot.
  ghost predicate ShownClosing(st: Store, x: Reader, j: nat)
    requires x.Streaming? && j < |st.log|
  {
    && ClosingEvent(st.log[j].event)
    && (x.sequence <= j < x.last || (j < x.seen && st.log[j].event == StatusUpdate(x.snapshot.status)))
  }

  lemma SnapshotShowsItsStatus(st: Store, x: Reader, k: nat) returns (j: nat)
    requires x.Streaming? && 0 < x.seen <= |st.log| && x.snapshot.status == Replay(st.log[..x.seen]).status
    requires LegalLog(st.log) && ClosesStream(x.snapshot.status.state)
    requires k < x.seen && st.log[k].event == StatusUpdate(Status(Working, None))
    ensures k < j < x.seen && ShownClosing(st, x, j)
  {
    LegalPrefix(st.log, x.seen);
    j := LastStatusEvent(st.log[..x.seen]);
    assert st.log[..x.seen][j] == st.log[j] && st.log[..x.seen][k] == st.log[k];
  }

  // Reader r, absent when the log held n entries and Started send s had no sink, is open now.
  ghost predicate OpenedFor(w: World, r: Id, s: Id, n: nat) {
    && s in w.sends && w.sends[s].pc.Started?
    && r in w.readers && w.readers[r].Streaming? && n <= w.readers[r].sequence
  }

  lemma OpenedBeforeSpawn(ls: seq<Label>, opening: seq<Label>, more: seq<Label>, r: Id, s: Id, f: Id)
    requires r !in Run(START, ls).readers
    requires var w1 := Run(START, ls + opening);
             s in w1.sends && w1.sends[s].pc.Started? && r in w1.readers && w1.readers[r].Streaming?
    requires var w2 := Run(START, ls + opening + more); f in w2.sinks && w2.sinks[f].origin == s
    ensures OpenedFor(Run(START, ls + opening), r, s, |Run(START, ls).store.log|)
    ensures f !in Run(START, ls + opening).sinks
  {
    hide Run, Step;
    LaterState(ls, opening);
    LaterState(ls + opening, more);
    NewReaderStartsAfter(Run(START, ls), opening, r);
    var w1 := Run(START, ls + opening);
    if f in w1.sinks {
      RunKeepsOrigin(w1, more, f);
    }
  }

  /** An entry that reaches the stream, or the closing status shown before it. */
  ghost predicate DeliveredOrClosed(st: Store, x: Reader, k: nat, i: nat)
    requires x.Streaming? && i < |st.log| && ReaderOk(st, x)
  {
    && k < x.sequence <= i
    && if i < x.last then x.delivered[i - x.sequence] == st.log[i].event
       else x.open || exists j :: k < j < i && ShownClosing(st, x, j)
  }

  lemma LaterThanTheTurn(st: Store, x: Reader, k: nat, i: nat)
    requires x.Streaming? && i < |st.log| && ReaderOk(st, x) && Reaches(st, x, i)
    requires 0 < x.seen <= i && x.snapshot.status == Replay(st.log[..x.seen]).status && LegalLog(st.log)
    requires k < x.sequence && st.log[k].event == StatusUpdate(Status(Working, None))
    ensures DeliveredOrClosed(st, x, k, i)
  {
    hide EventsIn, LegalLog, Replay;
    if x.last <= i && !x.open {
      if ClosesStream(x.snapshot.status.state) {
        var j := SnapshotShowsItsStatus(st, x, k);
      } else {
        assert ShownClosing(st, x, x.last - 1);
      }
    }
  }

  /** The send path: the stream is opened between the start of the turn, entry k, and the
      spawn of its executor. Every event of that executor is delivered, or will be by a later
      poll, unless the stream has shown a closing status before it, and since this turn started. */
  lemma ExecutorEventsReachTheSender(ls: seq<Label>, opening: seq<Label>, more: seq<Label>,
                                     s: Id, k: nat, r: Id, f: Id, i: nat)
    requires EachStep(ReadsStatus, ls + opening + more)
    requires var w := Run(START, ls);
             && r !in w.readers && k < |w.store.log|
             && w.store.log[k] == Entry(StatusUpdate(Status(Working, None)), BySend(s))
    requires var w1 := Run(START, ls + opening);
             s in w1.sends && w1.sends[s].pc.Started? && r in w1.readers && w1.readers[r].Streaming?
    requires var w2 := Run(START, ls + opening + more);
             f in w2.sinks && w2.sinks[f].origin == s && CommittedOn(w2, i, f)
    ensures var w2 := Run(START, ls + opening + more);
            && r in w2.readers && w2.readers[r].Streaming? && ReaderOk(w2.store, w2.readers[r])
            && DeliveredOrClosed(w2.store, w2.readers[r], k, i)
  {
    hide Run, Step, EventsIn, EachStep, ReadsStatus, LegalStep, LegalLog, Replay, Reaches, DeliveredOrClosed, StatusReplays;
    var all := ls + opening + more;
    var w1, w2 := Run(START, ls + opening), Run(START, all);
    OpenedBeforeSpawn(ls, opening, more, r, s, f);
    LaterState(ls, opening);
    LaterState(ls + opening, more);
    RunKeepsReader(w1, more, r);
    SendStreamSeesItsExecutor(ls + opening, more, r, f, i);
    SinkCommitsLater(ls + opening, more, f, i);
    SnapshotShowsTheReplay(all, r);
    StatusKeepsLegal(all);
    LegalExactly(all);
    assert ReaderOk(w1.store, w1.readers[r]);
    LaterThanTheTurn(w2.store, w2.readers[r], k, i);
  }

  lemma SnapshotShowsTheReplay(ls: seq<Label>, r: Id)
    requires EachStep(ReadsStatus, ls) && r in Run(START, ls).readers && Run(START, ls).readers[r].Streaming?
    ensures var st, x := Run(START, ls).store, Run(START, ls).readers[r];
            0 < x.seen <= |st.log| && x.snapshot.status == Replay(st.log[..x.seen]).status
  {
    hide Run, EachStep, ReadsStatus, Replay;
    var n := SnapshotWasTaken(ls, r);
    SnapshotLog(ls, r, n);
    StatusExactly(ls);
    assert StatusReplays(Run(START, ls[..n]).store);
  }
}
