// What an artifact commit with an outdated read costs, and reachable schedules, on one
// instance, in which it happens.
module Overlaps {
  import opened Wrappers
  import opened Lifecycle
  import opened TaskLog
  import opened AtomicStore
  import opened Protocol
  import opened Safety
  import opened Runs
  import opened Replaying
  import opened Turns
  import opened Schedules
  import opened FamilyTheorems

  // The log as an artifact commit by e, whose read is k entries old, makes the row look: the
  // entries read, and its own.
  ghost function Effective(w: World, e: Id, k: nat): seq<Entry>
    requires e in w.emits && k <= |w.store.log|
  {
    w.store.log[..k] + [Entry(EventOf(w.emits[e].op), ByEmit(e))]
  }

  /** An artifact commit whose read is `k` entries old leaves the row as if the entries since
      had never been: those before k keep their places, its own parts stand where they would
      stand right after them, and of the parts that the log carries exactly those of the
      entries since are gone. */
  lemma StaleWriteLosesParts(w: World, e: Id, k: nat)
    requires Inv(w) && e in w.emits && w.emits[e].op.EmitArtifact? && w.emits[e].pc.HasRead?
    requires k <= |w.store.log| && ViewOf(w.emits[e].pc.task) == Replay(w.store.log[..k])
    requires EmitWrite(w.store, w.emits[e], e).Ok?
    ensures var after, eff := EmitWrite(w.store, w.emits[e], e).value.store, Effective(w, e, k);
            && after.task.Some? && ViewOf(after.task.value) == Replay(eff)
            && (forall i | 0 <= i < k && w.store.log[i].event.ArtifactUpdate? ::
                  SlotOf(eff, i) == SlotOf(w.store.log, i)
                  && Holds(after.task.value.artifacts, SlotOf(w.store.log, i), w.store.log[i].event.artifact))
            && Holds(after.task.value.artifacts, SlotOf(eff, k), w.emits[e].op.artifact)
            && PartCount(after.task.value.artifacts) + EmittedParts(w.store.log[k..]) == EmittedParts(after.log)
  {
    var x, log, eff := w.emits[e], w.store.log, Effective(w, e, k);
    var after := EmitWrite(w.store, x, e).value.store;
    assert eff[..k] == log[..k] && eff[..|eff| - 1] == log[..k] && eff[..|eff|] == eff;
    forall i | 0 <= i < k && log[i].event.ArtifactUpdate?
      ensures SlotOf(eff, i) == SlotOf(log, i) && Holds(Replay(eff).artifacts, SlotOf(log, i), log[i].event.artifact)
    {
      assert eff[..i] == log[..i];
      PartsAreKept(eff, i, |eff|);
    }
    PartsAreKept(eff, k, |eff|);
    PartsOfStaleWrite(w, e, k);
  }

  lemma PartsOfStaleWrite(w: World, e: Id, k: nat)
    requires e in w.emits && w.emits[e].op.EmitArtifact? && w.emits[e].pc.HasRead?
    requires k <= |w.store.log| && ViewOf(w.emits[e].pc.task) == Replay(w.store.log[..k])
    requires EmitWrite(w.store, w.emits[e], e).Ok?
    ensures var after := EmitWrite(w.store, w.emits[e], e).value.store;
            after.task.Some? &&
            PartCount(after.task.value.artifacts) + EmittedParts(w.store.log[k..]) == EmittedParts(after.log)
  {
    var x, log := w.emits[e], w.store.log;
    var after := EmitWrite(w.store, x, e).value.store;
    PartsAreConserved(log[..k]);
    MergeAddsParts(x.pc.task.artifacts, x.op.artifact, x.op.append);
    EmittedPartsConcat(log[..k], log[k..]);
    assert log == log[..k] + log[k..];
    assert after.log[..|after.log| - 1] == log;
  }

  lemma {:induction false} EmittedPartsConcat(a: seq<Entry>, b: seq<Entry>)
    ensures EmittedParts(a + b) == EmittedParts(a) + EmittedParts(b)
  {
    if b == [] {
      assert a + b == a;
    } else {
      EmittedPartsConcat(a, b[..|b| - 1]);
      assert (a + b)[..|a + b| - 1] == a + b[..|b| - 1];
    }
  }

  /** It puts the status of its read back. The log replays to the row's status after the
      commit exactly when the status it read is still the replayed one. */
  lemma StaleWriteRestoresStatus(w: World, e: Id)
    requires e in w.emits && w.emits[e].op.EmitArtifact? && w.emits[e].pc.HasRead?
    requires EmitWrite(w.store, w.emits[e], e).Ok?
    ensures var after := EmitWrite(w.store, w.emits[e], e).value.store;
            && after.task.Some? && after.task.value.status == w.emits[e].pc.task.status
            && Replay(after.log).status == Replay(w.store.log).status
            && (after.task.value.status == Replay(after.log).status <==>
                  w.emits[e].pc.task.status == Replay(w.store.log).status)
  {
    var after := EmitWrite(w.store, w.emits[e], e).value.store;
    assert after.log[..|after.log| - 1] == w.store.log;
  }

  /** It puts back the history of its read as well: a message appended since is kept only if
      there was none. */
  lemma StaleWriteRestoresHistory(w: World, e: Id)
    requires e in w.emits && w.emits[e].op.EmitArtifact? && w.emits[e].pc.HasRead?
    requires EmitWrite(w.store, w.emits[e], e).Ok?
    ensures var after := EmitWrite(w.store, w.emits[e], e).value.store;
            && w.store.task.Some? && after.task.Some?
            && after.task.value.history == w.emits[e].pc.task.history
            && (after.task.value.history == w.store.task.value.history <==>
                  w.emits[e].pc.task.history == w.store.task.value.history)
  {
  }

  // ---- Three schedules, on one instance ----
  //
  // Three follow-ups to one interruption are resolved while no executor is registered. The
  // first starts its turn; its executor hands the task back to the client and goes on to add
  // an artifact. While that has read the row, the second follow-up starts its turn, which
  // nothing checks against the registry.

  const PART: EmitOp := EmitArtifact(Artifact("a", ["p"]), false, false)
  const OTHER: EmitOp := EmitArtifact(Artifact("b", ["q"]), false, false)

  const READING: seq<Label> := [EmitCall(2, 1, PART), EmitLock(2), EmitRead(2)]
  const FOLLOWED: seq<Label> := INTERRUPTED + Following(1, 200) + Following(3, 200) + Following(2, 200)
  const READ: seq<Label> := FOLLOWED + Starting(1, 1) + Asking(1, 1) + READING

  // The artifact is committed at once ...
  const ROLLBACK: seq<Label> := READ + [SendStart(2), EmitCommit(2)]

  // ... and the third follow-up starts its turn too ...
  const TWICE: seq<Label> := ROLLBACK + [SendStart(3)]

  // ... or after a job that the second send enqueued has run, and has added an artifact.
  const QUEUED: seq<Label> := [SendStart(2), SendEnqueue(2), JobSpawn(2, 2)]
  const ADDING: seq<Label> := [EmitCall(3, 2, OTHER), EmitLock(3), EmitRead(3)]
  const ADDED: seq<Label> := [EmitCommit(3), EmitPublish(3), EmitReturn(3)]
  const LOSS: seq<Label> := READ + QUEUED + ADDING + ADDED + [EmitCommit(2)]

  lemma ReadStep(w: World, e: Id, f: Id, op: EmitOp)
    requires e in w.emits && w.emits[e] == Emit(f, op, Holding) && op.EmitArtifact? && f in w.sinks && w.store.task.Some?
    ensures Step(w, EmitRead(e)) == w.(emits := w.emits[e := Emit(f, op, HasRead(w.store.task.value))])
  {
  }

  lemma AfterCallAndRead(w: World, e: Id, f: Id, op: EmitOp) returns (w': World)
    requires Free(w, f) && e !in w.emits && op.EmitArtifact? && w.store.task.Some?
    ensures w' == Run(w, [EmitCall(e, f, op), EmitLock(e), EmitRead(e)])
    ensures w' == w.(emits := w.emits[e := Emit(f, op, HasRead(w.store.task.value))],
                     sinks := w.sinks[f := w.sinks[f].(lock := Some(e))])
  {
    hide Run, Step;
    RunThree(w, EmitCall(e, f, op), EmitLock(e), EmitRead(e));
    CallAndLock(w, e, f, op);
    var w2 := Step(Step(w, EmitCall(e, f, op)), EmitLock(e));
    ReadStep(w2, e, f, op);
    w' := Step(w2, EmitRead(e));
  }

  lemma ArtifactCommits(w: World, e: Id, f: Id)
    requires e in w.emits && w.emits[e].sink == f && w.emits[e].op.EmitArtifact? && w.emits[e].pc.HasRead? && f in w.sinks
    requires w.store.task.Some? && !Terminal(w.store)
    ensures var w' := Step(w, EmitCommit(e)); var t := Merged(w.emits[e].pc.task, w.emits[e].op);
            && w'.sinks == w.sinks && w'.sends == w.sends && w'.store.task == Some(t)
            && w'.store.log == w.store.log + [Entry(EventOf(w.emits[e].op), ByEmit(e))]
            && w'.emits == w.emits[e := Emit(f, w.emits[e].op, Committed(Commit(|w.store.log| + 1, t)))]
  {
  }

  const STARTED_2: Entry := Entry(StatusUpdate(Status(Working, None)), BySend(2))
  const STARTED_3: Entry := Entry(StatusUpdate(Status(Working, None)), BySend(3))

  // Emit 2 on sink 1 has read a row that the client holds, and send 2 may start.
  ghost predicate HasRead2(w: World) {
    && 2 in w.sends && w.sends[2].pc.Leased? && 3 in w.sends && w.sends[3].pc.Leased? && w.sinks.Keys == {0, 1}
    && w.emits.Keys == {0, 1, 2} && w.emits[2].sink == 1 && w.emits[2].op == PART && w.emits[2].pc.HasRead?
    && ViewOf(w.emits[2].pc.task) == View(Status(InputRequired, None), [])
    && w.store.task.Some? && ViewOf(w.store.task.value) == View(Status(InputRequired, None), [])
  }

  lemma AfterFollowUps() returns (w: World)
    ensures w == Run(START, FOLLOWED) && |w.store.log| == 3
    ensures {1, 2, 3} <= w.sends.Keys && w.sends[1].pc.Leased? && w.sends[2].pc.Leased? && w.sends[3].pc.Leased?
    ensures w.sinks.Keys == {0} && w.emits.Keys == {0}
    ensures w.store.task.Some? && ViewOf(w.store.task.value) == View(Status(InputRequired, None), [])
  {
    hide Run, Step;
    RunConcat(START, INTERRUPTED, Following(1, 200));
    RunConcat(START, INTERRUPTED + Following(1, 200), Following(3, 200));
    RunConcat(START, INTERRUPTED + Following(1, 200) + Following(3, 200), Following(2, 200));
    var w1 := AfterInterrupt();
    var w2 := AfterFollowing(w1, 1, 200);
    var w3 := AfterFollowing(w2, 3, 200);
    w := AfterFollowing(w3, 2, 200);
  }

  lemma AfterRead() returns (w: World)
    ensures w == Run(START, READ) && HasRead2(w)
  {
    hide Run, Step;
    RunConcat(START, FOLLOWED, Starting(1, 1));
    RunConcat(START, FOLLOWED + Starting(1, 1), Asking(1, 1));
    RunConcat(START, FOLLOWED + Starting(1, 1) + Asking(1, 1), READING);
    var w1 := AfterFollowUps();
    var w2 := AfterStarting(w1, 1, 1);
    var w3 := AfterAsk(w2, 1, 1);
    w := AfterCallAndRead(w3, 2, 1, PART);
  }

  lemma RestoresStatus(w: World)
    requires HasRead2(w) && w.store.task.Some?
    ensures var w' := Step(Step(w, SendStart(2)), EmitCommit(2));
            && w'.store.task.Some? && w'.store.task.value.status.state.InputRequired?
            && w'.store.log == w.store.log + [STARTED_2] + [Entry(EventOf(PART), ByEmit(2))]
            && 3 in w'.sends && w'.sends[3].pc.Leased?
    ensures Replay(Step(Step(w, SendStart(2)), EmitCommit(2)).store.log).status.state.Working?
  {
    hide Step, Replay;
    StartLogs(w, 2);
    var w1 := Step(w, SendStart(2));
    ArtifactCommits(w1, 2, 1);
    LastStatusIsReplayed(w.store.log, STARTED_2, Entry(EventOf(PART), ByEmit(2)));
  }

  lemma LastStatusIsReplayed(log: seq<Entry>, x: Entry, y: Entry)
    requires x.event.StatusUpdate? && y.event.ArtifactUpdate?
    ensures Replay(log + [x] + [y]).status == x.event.status
  {
    var once, both := log + [x], log + [x] + [y];
    assert both[..|both| - 1] == once && once[..|once| - 1] == log;
    assert ReplayOver(CREATED, once) == Apply(ReplayOver(CREATED, log), x.event);
    assert ReplayOver(CREATED, both) == Apply(ReplayOver(CREATED, once), y.event);
  }

  /** The row is rolled back to INPUT_REQUIRED while the log says WORKING. */
  lemma OverlappingTurnBreaksReplay()
    ensures var st := Run(START, ROLLBACK).store;
            st.task.Some? && st.task.value.status.state.InputRequired? && Replay(st.log).status.state.Working?
  {
    hide Run, Step, Replay;
    var w := AfterRead();
    RunConcat(START, READ, [SendStart(2), EmitCommit(2)]);
    RunTwo(w, SendStart(2), EmitCommit(2));
    RestoresStatus(w);
  }

  lemma NotAskedBetween(before: seq<Entry>, x: Entry, a: Entry, y: Entry)
    requires TurnStart(x) && TurnStart(y) && !HandsOver(a)
    ensures var log := before + [x] + [a] + [y];
            log[|before|] == x && log[|before| + 2] == y && !AskedBetween(log, |before|, |before| + 2)
  {
    var log := before + [x] + [a] + [y];
    assert log[|before| + 1] == a;
  }

  /** Three follow-ups were let in by one interruption, when the log had three entries. Two of
      them have started a turn with nothing between but an artifact: turns do not alternate,
      and the status events are no path. */
  lemma TwoTurnsForOneInterruption()
    ensures var w := Run(START, FOLLOWED);
            && |w.store.log| == 3 && {2, 3} <= w.sends.Keys && w.sends[2].pc.Leased? && w.sends[3].pc.Leased?
    ensures var log := Run(START, TWICE).store.log; var n := |log|;
            n > 3 && log[n - 3] == STARTED_2 && !HandsOver(log[n - 2]) && log[n - 1] == STARTED_3
    ensures !TurnsAlternate(Run(START, TWICE).store)
    ensures !Path(Statuses(Run(START, TWICE).store.log))
  {
    hide Run, Step, Replay, Path, Statuses, EachStep;
    var followed := AfterFollowUps();
    var w := AfterRead();
    RunConcat(START, READ, [SendStart(2), EmitCommit(2)]);
    RunTwo(w, SendStart(2), EmitCommit(2));
    RestoresStatus(w);
    var w1 := Step(Step(w, SendStart(2)), EmitCommit(2));
    RunConcat(START, ROLLBACK, [SendStart(3)]);
    RunOne(w1, SendStart(3));
    StartLogs(w1, 3);
    var a := Entry(EventOf(PART), ByEmit(2));
    assert Run(START, TWICE).store.log == w.store.log + [STARTED_2] + [a] + [STARTED_3];
    assert w.store.log != [] by { LogsGrow(READ, |FOLLOWED|); assert READ[..|FOLLOWED|] == FOLLOWED; }
    NotAskedBetween(w.store.log, STARTED_2, a, STARTED_3);
    assert !TurnsAlternate(Run(START, TWICE).store);
    PathExactly(TWICE);
    if EachStep(LegalStep, TWICE) {
      LegalTurnsAlternate(TWICE);
    }
  }

  lemma JobSpawns(w: World)
    requires 2 in w.sends && w.sends[2].pc.Started? && 2 !in w.sinks
    ensures Step(Step(w, SendEnqueue(2)), JobSpawn(2, 2)) ==
              w.(sends := w.sends[2 := w.sends[2].(pc := Enqueued)], sinks := w.sinks[2 := NewSink(2)])
  {
    assert Step(w, SendEnqueue(2)) == w.(sends := w.sends[2 := w.sends[2].(pc := Enqueued)]);
  }

  lemma AfterQueued(w: World) returns (w': World)
    requires HasRead2(w)
    ensures w' == Run(w, QUEUED)
    ensures w'.sinks == w.sinks[2 := NewSink(2)] && w'.emits == w.emits
    ensures w'.store.task.Some? && ViewOf(w'.store.task.value) == View(Status(Working, None), [])
  {
    hide Run, Step;
    RunThree(w, SendStart(2), SendEnqueue(2), JobSpawn(2, 2));
    StartLogs(w, 2);
    JobSpawns(Step(w, SendStart(2)));
    w' := Step(Step(Step(w, SendStart(2)), SendEnqueue(2)), JobSpawn(2, 2));
  }

  lemma AfterAdded(w: World) returns (w': World)
    requires 3 in w.emits && w.emits[3].sink == 2 && w.emits[3].op == OTHER && w.emits[3].pc.HasRead? && 2 in w.sinks
    requires w.emits[3].pc.task.status == Status(Working, None)
    requires w.store.task.Some? && w.store.task.value.status == Status(Working, None)
    ensures w' == Run(w, ADDED)
    ensures w'.sinks.Keys == w.sinks.Keys && w'.store.task.Some? && !Terminal(w'.store)
    ensures OkArtifact(w', 3) && w'.emits[3].op == OTHER && w'.emits == w.emits[3 := w'.emits[3]]
  {
    hide Run, Step;
    RunThree(w, EmitCommit(3), EmitPublish(3), EmitReturn(3));
    ArtifactCommits(w, 3, 2);
    var w1 := Step(w, EmitCommit(3));
    PublishAndReturn(w1, 3, 2);
    w' := Step(Step(w1, EmitPublish(3)), EmitReturn(3));
  }

  lemma RunLoss()
    ensures Run(START, LOSS) == Step(Run(Run(Run(Run(START, READ), QUEUED), ADDING), ADDED), EmitCommit(2))
  {
    hide Run, Step;
    RunConcat(START, READ, QUEUED);
    RunConcat(START, READ + QUEUED, ADDING);
    RunConcat(START, READ + QUEUED + ADDING, ADDED);
    RunConcat(START, READ + QUEUED + ADDING + ADDED, [EmitCommit(2)]);
    RunOne(Run(START, READ + QUEUED + ADDING + ADDED), EmitCommit(2));
  }

  /** Emit 3 returned Ok, and its artifact is not in the task. */
  lemma OverlappingTurnLosesParts()
    ensures var w := Run(START, LOSS);
            && OkArtifact(w, 3) && w.emits[3].op == OTHER
            && w.store.task.Some? && w.store.task.value.artifacts == [PART.artifact]
  {
    hide Run, Step;
    RunLoss();
    var w := AfterRead();
    var w1 := AfterQueued(w);
    var w2 := AfterCallAndRead(w1, 3, 2, OTHER);
    var w3 := AfterAdded(w2);
    ArtifactCommits(w3, 2, 1);
  }
}
