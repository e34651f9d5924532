// Pieces of concrete schedules, and the states they lead to.
module Schedules {
  import opened Wrappers
  import opened Lifecycle
  import opened TaskLog
  import opened AtomicStore
  import opened Protocol

  const ASK: EmitOp := EmitStatus(Status(InputRequired, None))

  /** A follow-up, up to its lease. */
  function Following(s: Id, expires: int): seq<Label> {
    [SendResolve(s, "more", true, false), SendRecord(s), SendLease(s, Some(expires))]
  }

  /** The start of a turn, and its executor. */
  function Starting(s: Id, f: Id): seq<Label> {
    [SendStart(s), SendSpawn(s, f)]
  }

  /** An executor hands the task to the client. */
  function Asking(e: Id, f: Id): seq<Label> {
    [EmitCall(e, f, ASK), EmitLock(e), EmitCommit(e), EmitPublish(e), EmitReturn(e)]
  }

  const FIRST_TURN: seq<Label> :=
    [SendResolve(0, "hi", false, false), SendRecord(0), SendLease(0, Some(100))] + Starting(0, 0)

  // A new task's first turn, up to its executor's exit after INPUT_REQUIRED.
  const INTERRUPTED: seq<Label> := FIRST_TURN + Asking(0, 0) + [SinkExit(0)]

  // ---- Short runs ----

  lemma RunOne(w: World, l: Label)
    ensures Run(w, [l]) == Step(w, l)
  {
    assert [l][..0] == [];
    assert Run(w, [l][..0]) == w;
  }

  lemma RunTwo(w: World, a: Label, b: Label)
    ensures Run(w, [a, b]) == Step(Step(w, a), b)
  {
    hide Step;
    RunOne(w, a);
    assert [a, b][..1] == [a];
  }

  lemma RunThree(w: World, a: Label, b: Label, c: Label)
    ensures Run(w, [a, b, c]) == Step(Step(Step(w, a), b), c)
  {
    hide Step;
    RunTwo(w, a, b);
    assert [a, b, c][..2] == [a, b];
  }

  lemma RunFive(w: World, a: Label, b: Label, c: Label, d: Label, e: Label)
    ensures Run(w, [a, b, c, d, e]) == Step(Step(Step(Step(Step(w, a), b), c), d), e)
  {
    hide Step;
    RunThree(w, a, b, c);
    RunTwo(Step(Step(Step(w, a), b), c), d, e);
    RunConcat(w, [a, b, c], [d, e]);
    assert [a, b, c, d, e] == [a, b, c] + [d, e];
  }

  // ---- Emits ----

  lemma CallAndLock(w: World, e: Id, f: Id, op: EmitOp)
    requires f in w.sinks && w.sinks[f].live && w.sinks[f].lock.None? && !w.sinks[f].isClosed && e !in w.emits
    ensures Step(Step(w, EmitCall(e, f, op)), EmitLock(e)) ==
              w.(emits := w.emits[e := Emit(f, op, Holding)], sinks := w.sinks[f := w.sinks[f].(lock := Some(e))])
  {
    var w1 := Step(w, EmitCall(e, f, op));
    assert w1 == w.(emits := w.emits[e := Emit(f, op, Waiting)]);
    assert Step(w1, EmitLock(e)).emits == w.emits[e := Emit(f, op, Holding)];
  }

  /** What a published and returned emit leaves: its result, and its lock free. */
  lemma PublishAndReturn(w: World, e: Id, f: Id)
    requires e in w.emits && w.emits[e].sink == f && w.emits[e].pc.Committed? && f in w.sinks
    requires w.emits[e].op.EmitStatus? ==> !IsTerminal(w.emits[e].op.status.state)
    ensures var w' := Step(Step(w, EmitPublish(e)), EmitReturn(e)); var k := w.sinks[f];
            && w'.store == w.store && w'.sends == w.sends && w'.sinks.Keys == w.sinks.Keys
            && (forall g | g in w.sinks && g != f :: w'.sinks[g] == w.sinks[g])
            && w'.sinks[f].origin == k.origin && w'.sinks[f].live == k.live
            && w'.sinks[f].lock.None? && w'.sinks[f].isClosed == k.isClosed
            && w'.emits == w.emits[e := Emit(f, w.emits[e].op, Finished(Emitted(w.emits[e].pc.commit.at)))]
  {
    var w1 := Step(w, EmitPublish(e));
    assert w1.emits == w.emits[e := Emit(f, w.emits[e].op, EmitPc.Published(w.emits[e].pc.commit.at))];
  }

  lemma AskCommits(w: World, e: Id, f: Id)
    requires e in w.emits && w.emits[e] == Emit(f, ASK, Holding) && f in w.sinks
    requires w.store.task.Some? && w.store.task.value.status.state.Working?
    ensures var w' := Step(w, EmitCommit(e));
            && w'.sinks == w.sinks && w'.sends == w.sends && w'.emits == w.emits[e := w'.emits[e]]
            && w'.emits[e].sink == f && w'.emits[e].op == ASK && w'.emits[e].pc.Committed?
            && w'.store.log == w.store.log + [Entry(StatusUpdate(Status(InputRequired, None)), ByEmit(e))]
            && w'.store.task == Some(w.store.task.value.(status := Status(InputRequired, None)))
            && w'.store.lease == w.store.lease
  {
  }

  // Sink f is open to emits, and nobody is inside its lock.
  ghost predicate Free(w: World, f: Id) {
    f in w.sinks && w.sinks[f].live && w.sinks[f].lock.None? && !w.sinks[f].isClosed
  }

  lemma AfterAsk(w: World, e: Id, f: Id) returns (w': World)
    requires Free(w, f) && e !in w.emits
    requires w.store.task.Some? && w.store.task.value.status.state.Working?
    ensures w' == Run(w, Asking(e, f))
    ensures w'.sinks.Keys == w.sinks.Keys && w'.sends == w.sends && Free(w', f)
    ensures w'.sinks[f].origin == w.sinks[f].origin
    ensures forall g | g in w.sinks && g != f :: w'.sinks[g] == w.sinks[g]
    ensures e in w'.emits && w'.emits == w.emits[e := w'.emits[e]] && w'.emits[e].sink == f && w'.emits[e].pc.Finished?
    ensures w'.store.log == w.store.log + [Entry(StatusUpdate(Status(InputRequired, None)), ByEmit(e))]
    ensures w'.store.task == Some(w.store.task.value.(status := Status(InputRequired, None)))
    ensures w'.store.lease == w.store.lease
  {
    hide Run, Step;
    RunFive(w, EmitCall(e, f, ASK), EmitLock(e), EmitCommit(e), EmitPublish(e), EmitReturn(e));
    CallAndLock(w, e, f, ASK);
    var w2 := Step(Step(w, EmitCall(e, f, ASK)), EmitLock(e));
    AskCommits(w2, e, f);
    var w3 := Step(w2, EmitCommit(e));
    PublishAndReturn(w3, e, f);
    w' := Step(Step(w3, EmitPublish(e)), EmitReturn(e));
  }

  lemma AfterExit(w: World, f: Id) returns (w': World)
    requires f in w.sinks && forall e | e in w.emits && w.emits[e].sink == f :: w.emits[e].pc.Finished?
    ensures w' == Run(w, [SinkExit(f)])
    ensures w' == w.(sinks := w.sinks[f := w.sinks[f].(live := false)])
  {
    RunOne(w, SinkExit(f));
    w' := Step(w, SinkExit(f));
  }

  // ---- Sends ----

  lemma StartLogs(w: World, s: Id)
    requires s in w.sends && w.sends[s].pc.Leased? && w.store.task.Some?
    requires var state := w.store.task.value.status.state; ClientHeld(state) || state.Submitted?
    ensures var w' := Step(w, SendStart(s));
            && w' == w.(store := w'.store, sends := w.sends[s := w.sends[s].(pc := Started)])
            && w'.store.log == w.store.log + [Entry(StatusUpdate(Status(Working, None)), BySend(s))]
            && w'.store.task == Some(w.store.task.value.(status := Status(Working, None)))
            && w'.store.lease == w.store.lease
  {
  }

  lemma SpawnAdds(w: World, s: Id, f: Id)
    requires s in w.sends && w.sends[s].pc.Started? && f !in w.sinks
    ensures Step(w, SendSpawn(s, f)) ==
              w.(sinks := w.sinks[f := NewSink(s)], sends := w.sends[s := w.sends[s].(pc := Spawned(f))])
  {
  }

  lemma AfterStarting(w: World, s: Id, f: Id) returns (w': World)
    requires s in w.sends && w.sends[s].pc.Leased? && w.store.task.Some? && f !in w.sinks
    requires var state := w.store.task.value.status.state; ClientHeld(state) || state.Submitted?
    ensures w' == Run(w, Starting(s, f))
    ensures w'.sinks == w.sinks[f := NewSink(s)] && w'.emits == w.emits
    ensures w'.sends == w.sends[s := w.sends[s].(pc := Spawned(f))]
    ensures w'.store.log == w.store.log + [Entry(StatusUpdate(Status(Working, None)), BySend(s))]
    ensures w'.store.task == Some(w.store.task.value.(status := Status(Working, None)))
    ensures w'.store.lease == w.store.lease
  {
    hide Run, Step;
    RunTwo(w, SendStart(s), SendSpawn(s, f));
    StartLogs(w, s);
    SpawnAdds(Step(w, SendStart(s)), s, f);
    w' := Step(Step(w, SendStart(s)), SendSpawn(s, f));
  }

  lemma FollowUpResolves(w: World, s: Id)
    requires s !in w.sends && w.store.task.Some? && w.store.task.value.status.state.InputRequired?
    ensures Step(w, SendResolve(s, "more", true, false)) == w.(sends := w.sends[s := Send("more", true, Resolved)])
  {
  }

  lemma FollowUpRecords(w: World, s: Id)
    requires s in w.sends && w.sends[s] == Send("more", true, Resolved) && w.store.task.Some?
    ensures var w' := Step(w, SendRecord(s)); var t := w.store.task.value;
            w' == w.(sends := w.sends[s := Send("more", true, Recorded)],
                     store := w.store.(task := Some(t.(history := t.history + ["more"]))))
  {
  }

  lemma FollowUpLeases(w: World, s: Id, expires: int)
    requires s in w.sends && w.sends[s] == Send("more", true, Recorded) && w.store.task.Some?
    ensures Step(w, SendLease(s, Some(expires))) ==
              w.(sends := w.sends[s := Send("more", true, Leased)], store := w.store.(lease := Some(Lease(expires, s))))
  {
  }

  lemma AfterFollowing(w: World, s: Id, expires: int) returns (w': World)
    requires s !in w.sends && w.store.task.Some? && w.store.task.value.status.state.InputRequired?
    ensures w' == Run(w, Following(s, expires))
    ensures w'.sends == w.sends[s := Send("more", true, Leased)] && w'.sinks == w.sinks && w'.emits == w.emits
    ensures w'.store.log == w.store.log && w'.store.lease == Some(Lease(expires, s))
    ensures w'.store.task.Some? && ViewOf(w'.store.task.value) == ViewOf(w.store.task.value)
  {
    hide Run, Step;
    RunThree(w, SendResolve(s, "more", true, false), SendRecord(s), SendLease(s, Some(expires)));
    FollowUpResolves(w, s);
    var w1 := Step(w, SendResolve(s, "more", true, false));
    FollowUpRecords(w1, s);
    var w2 := Step(w1, SendRecord(s));
    FollowUpLeases(w2, s, expires);
    w' := Step(w2, SendLease(s, Some(expires)));
  }

  // ---- The first turn ----

  lemma AfterCreation() returns (w: World)
    ensures w == Run(START, FIRST_TURN[..3])
    ensures w.sinks == map[] && w.emits == map[] && w.sends == map[0 := Send("hi", false, Leased)]
    ensures w.store.task == Some(Task(Status(Submitted, None), [], ["hi"]))
    ensures w.store.log == [Entry(StatusUpdate(Status(Submitted, None)), BySend(0))]
    ensures w.store.lease == Some(Lease(100, 0))
  {
    hide Run;
    RunThree(START, FIRST_TURN[0], FIRST_TURN[1], FIRST_TURN[2]);
    assert FIRST_TURN[..3] == [FIRST_TURN[0], FIRST_TURN[1], FIRST_TURN[2]];
    var w1 := Step(START, FIRST_TURN[0]);
    assert w1 == START.(sends := map[0 := Send("hi", false, Resolved)]);
    var w2 := Step(w1, FIRST_TURN[1]);
    assert w2.sends == map[0 := Send("hi", false, Recorded)];
    w := Step(w2, FIRST_TURN[2]);
  }

  lemma AfterInterrupt() returns (w: World)
    ensures w == Run(START, INTERRUPTED)
    ensures w.sinks.Keys == {0} && !w.sinks[0].live && w.sinks[0].origin == 0
    ensures w.emits.Keys == {0} && w.emits[0].sink == 0 && w.emits[0].pc.Finished? && w.sends.Keys == {0}
    ensures w.store.task == Some(Task(Status(InputRequired, None), [], ["hi"]))
    ensures |w.store.log| == 3 && w.store.lease == Some(Lease(100, 0))
  {
    hide Run, Step;
    assert FIRST_TURN == FIRST_TURN[..3] + Starting(0, 0);
    RunConcat(START, FIRST_TURN[..3], Starting(0, 0));
    RunConcat(START, FIRST_TURN, Asking(0, 0));
    RunConcat(START, FIRST_TURN + Asking(0, 0), [SinkExit(0)]);
    var w1 := AfterCreation();
    var w2 := AfterStarting(w1, 0, 0);
    var w3 := AfterAsk(w2, 0, 0);
    w := AfterExit(w3, 0);
  }
}
