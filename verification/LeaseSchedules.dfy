// Three reachable schedules in which a turn starts without its own lease, although no two
// executors overlap.
module LeaseSchedules {
  import opened Wrappers
  import opened Lifecycle
  import opened TaskLog
  import opened AtomicStore
  import opened Protocol
  import opened Footprints
  import opened SingleFamily
  import opened Schedules
  import opened Leases

  // Two follow-ups to one interruption both write their lease before either starts; the
  // second one starts after the first one's turn was interrupted.
  const BOTH_LEASED: seq<Label> := INTERRUPTED + Following(2, 200) + Following(1, 200)
  const INTERLEAVED: seq<Label> := BOTH_LEASED + Starting(1, 1) + Asking(1, 1) + [SinkExit(1)] + [SendStart(2)]

  // A renewal on behalf of the previous turn's executor lands after the follow-up's lease.
  const LATE_RENEWAL: seq<Label> := INTERRUPTED + Following(1, 200) + [LeaseRenew(0, 300)] + [SendStart(1)]

  // So does the clearing of its lease.
  const LATE_CLEAR: seq<Label> := INTERRUPTED + Following(1, 200) + [LeaseClear] + [SendStart(1)]

  // ---- They meet the single-family hypothesis ----

  predicate Calm(ls: seq<Label>) {
    forall i | 0 <= i < |ls| :: !ls[i].SendStart? && !ls[i].SendSpawn? && !ls[i].JobSpawn?
  }

  lemma CalmSend(w: World, l: Label)
    requires IsSendLabel(l) && !l.SendStart? && !l.SendSpawn? && !l.JobSpawn?
    ensures StepSend(w, l).sinks.Keys == w.sinks.Keys
  {
    if !l.SinkExit? && !l.SenderDrop? {
      OnlySpawnsAndExitsTouchSinks(w, l);
    }
  }

  lemma CalmStep(w: World, l: Label)
    requires !l.SendStart? && !l.SendSpawn? && !l.JobSpawn?
    ensures Step(w, l).sinks.Keys == w.sinks.Keys && Alone(w, l)
  {
    if IsSendLabel(l) {
      CalmSend(w, l);
    } else if !IsEmitLabel(l) {
      OtherTouches(w, l);
    } else if !l.EmitCall? && StepEmit(w, l) != w {
      EmitIsLocal(w, l);
    }
  }

  lemma {:induction false} CalmIsExclusive(w: World, ls: seq<Label>)
    requires Calm(ls)
    ensures Exclusive(w, ls)
  {
    if ls != [] {
      hide Step, Alone;
      CalmIsExclusive(w, ls[..|ls| - 1]);
      CalmStep(Run(w, ls[..|ls| - 1]), ls[|ls| - 1]);
    }
  }

  lemma {:induction false} ExclusiveConcat(w: World, a: seq<Label>, b: seq<Label>)
    requires Exclusive(w, a) && Exclusive(Run(w, a), b)
    ensures Exclusive(w, a + b)
  {
    if b == [] {
      assert a + b == a;
    } else {
      hide Step, Alone;
      ExclusiveConcat(w, a, b[..|b| - 1]);
      RunConcat(w, a, b[..|b| - 1]);
      assert (a + b)[..|a + b| - 1] == a + b[..|b| - 1];
    }
  }

  lemma CalmAfter(w: World, a: seq<Label>, b: seq<Label>)
    requires Exclusive(w, a) && Calm(b)
    ensures Exclusive(w, a + b)
  {
    hide Run, Exclusive;
    CalmIsExclusive(Run(w, a), b);
    ExclusiveConcat(w, a, b);
  }

  lemma QuietStart(w: World, s: Id)
    requires Quiet(w)
    ensures Alone(w, SendStart(s)) && Quiet(Step(w, SendStart(s)))
  {
    OnlySpawnsAndExitsTouchSinks(w, SendStart(s));
  }

  lemma StartAfter(w: World, a: seq<Label>, s: Id)
    requires Exclusive(w, a) && Quiet(Run(w, a))
    ensures Exclusive(w, a + [SendStart(s)])
  {
    hide Step, Alone;
    assert (a + [SendStart(s)])[..|a|] == a;
    QuietStart(Run(w, a), s);
  }

  lemma StartingAfter(w: World, a: seq<Label>, s: Id, f: Id)
    requires Exclusive(w, a) && Quiet(Run(w, a))
    ensures Exclusive(w, a + Starting(s, f))
  {
    StartAfter(w, a, s);
    var b := a + [SendStart(s)];
    RunConcat(w, a, [SendStart(s)]);
    RunOne(Run(w, a), SendStart(s));
    QuietStart(Run(w, a), s);
    assert a + Starting(s, f) == b + [SendSpawn(s, f)];
    assert (b + [SendSpawn(s, f)])[..|b|] == b;
  }

  lemma InterruptedIsExclusive()
    ensures Exclusive(START, INTERRUPTED)
  {
    hide Run, Step, Exclusive;
    var w := AfterCreation();
    assert FIRST_TURN == FIRST_TURN[..3] + Starting(0, 0);
    CalmIsExclusive(START, FIRST_TURN[..3]);
    StartingAfter(START, FIRST_TURN[..3], 0, 0);
    CalmAfter(START, FIRST_TURN, Asking(0, 0));
    CalmAfter(START, FIRST_TURN + Asking(0, 0), [SinkExit(0)]);
  }

  // ---- What they lead to ----

  lemma StartOnAnotherLease(w: World, s: Id, other: Id)
    requires s in w.sends && w.sends[s].pc.Leased? && other != s
    requires w.store.task.Some? && w.store.task.value.status.state.InputRequired?
    requires w.store.lease.Some? && w.store.lease.value.send == other
    ensures var st := Step(w, SendStart(s)).store;
            Held(st) && CurrentTurn(st.log) == Some(s) && st.lease == w.store.lease && !LeaseIsCurrent(st, false)
  {
    StartLogs(w, s);
    NextTurn(w.store.log, Entry(StatusUpdate(Status(Working, None)), BySend(s)));
  }

  lemma AfterBothLeased() returns (w: World)
    ensures w == Run(START, BOTH_LEASED) && Exclusive(START, BOTH_LEASED)
    ensures w.sinks.Keys == {0} && Quiet(w) && w.emits.Keys == {0} && w.emits[0].sink == 0
    ensures 1 in w.sends && 2 in w.sends
    ensures w.sends[1].pc.Leased? && w.sends[2].pc.Leased? && w.store.lease == Some(Lease(200, 1))
    ensures w.store.task.Some? && w.store.task.value.status.state.InputRequired?
  {
    hide Run, Step, Exclusive;
    RunConcat(START, INTERRUPTED, Following(2, 200));
    RunConcat(START, INTERRUPTED + Following(2, 200), Following(1, 200));
    var w1 := AfterInterrupt();
    var w2 := AfterFollowing(w1, 2, 200);
    w := AfterFollowing(w2, 1, 200);
    InterruptedIsExclusive();
    CalmAfter(START, INTERRUPTED, Following(2, 200));
    CalmAfter(START, INTERRUPTED + Following(2, 200), Following(1, 200));
  }

  lemma AfterFirstOfBoth() returns (w: World)
    ensures w == Run(START, BOTH_LEASED + Starting(1, 1) + Asking(1, 1) + [SinkExit(1)])
    ensures Exclusive(START, BOTH_LEASED + Starting(1, 1) + Asking(1, 1) + [SinkExit(1)])
    ensures Quiet(w) && 2 in w.sends && w.sends[2].pc.Leased? && w.store.lease == Some(Lease(200, 1))
    ensures w.store.task.Some? && w.store.task.value.status.state.InputRequired?
  {
    hide Run, Step, Exclusive;
    RunConcat(START, BOTH_LEASED, Starting(1, 1));
    RunConcat(START, BOTH_LEASED + Starting(1, 1), Asking(1, 1));
    RunConcat(START, BOTH_LEASED + Starting(1, 1) + Asking(1, 1), [SinkExit(1)]);
    var w1 := AfterBothLeased();
    var w2 := AfterStarting(w1, 1, 1);
    var w3 := AfterAsk(w2, 1, 1);
    assert w3.emits[1].pc.Finished?;
    w := AfterExit(w3, 1);
    StartingAfter(START, BOTH_LEASED, 1, 1);
    CalmAfter(START, BOTH_LEASED + Starting(1, 1), Asking(1, 1));
    CalmAfter(START, BOTH_LEASED + Starting(1, 1) + Asking(1, 1), [SinkExit(1)]);
  }

  /** Send 2's turn runs on the lease of send 1's, an earlier turn. */
  lemma InterleavedFollowUps()
    ensures var st := Run(START, INTERLEAVED).store;
            && Held(st) && CurrentTurn(st.log) == Some(2) && st.lease == Some(Lease(200, 1)) && !LeaseIsCurrent(st, false)
    ensures Exclusive(START, INTERLEAVED)
  {
    hide Run, Step, Exclusive, LeaseIsCurrent, Held;
    var before := BOTH_LEASED + Starting(1, 1) + Asking(1, 1) + [SinkExit(1)];
    var w := AfterFirstOfBoth();
    RunConcat(START, before, [SendStart(2)]);
    RunOne(w, SendStart(2));
    StartOnAnotherLease(w, 2, 1);
    StartAfter(START, before, 2);
  }

  lemma AfterFollowUp() returns (w: World)
    ensures w == Run(START, INTERRUPTED + Following(1, 200)) && Exclusive(START, INTERRUPTED + Following(1, 200))
    ensures w.sinks.Keys == {0} && Quiet(w) && w.sinks[0].origin == 0 && 1 in w.sends && w.sends[1].pc.Leased?
    ensures w.store.task.Some? && w.store.task.value.status.state.InputRequired?
  {
    hide Run, Step, Exclusive;
    RunConcat(START, INTERRUPTED, Following(1, 200));
    var w1 := AfterInterrupt();
    w := AfterFollowing(w1, 1, 200);
    InterruptedIsExclusive();
    CalmAfter(START, INTERRUPTED, Following(1, 200));
  }

  lemma RunThenStart(before: seq<Label>, l: Label)
    requires Exclusive(START, before) && Calm([l]) && Quiet(Step(Run(START, before), l))
    ensures Run(START, before + [l] + [SendStart(1)]) == Step(Step(Run(START, before), l), SendStart(1))
    ensures Exclusive(START, before + [l] + [SendStart(1)])
  {
    hide Run, Step, Exclusive, Quiet;
    RunConcat(START, before, [l]);
    RunOne(Run(START, before), l);
    RunConcat(START, before + [l], [SendStart(1)]);
    RunOne(Run(START, before + [l]), SendStart(1));
    CalmAfter(START, before, [l]);
    StartAfter(START, before + [l], 1);
  }

  /** Send 1's turn runs on a lease renewed for send 0's. */
  lemma LateRenewal()
    ensures var st := Run(START, LATE_RENEWAL).store;
            && Held(st) && CurrentTurn(st.log) == Some(1) && st.lease == Some(Lease(300, 0)) && !LeaseIsCurrent(st, false)
    ensures Exclusive(START, LATE_RENEWAL)
  {
    var w := AfterFollowUp();
    hide Run, Exclusive, LeaseIsCurrent, Held;
    var w1 := Step(w, LeaseRenew(0, 300));
    assert w1 == w.(store := w.store.(lease := Some(Lease(300, 0))));
    RunThenStart(INTERRUPTED + Following(1, 200), LeaseRenew(0, 300));
    StartOnAnotherLease(w1, 1, 0);
  }

  /** Send 1's turn runs on no lease; it is nobody else's either. */
  lemma LateClear()
    ensures var st := Run(START, LATE_CLEAR).store;
            && Held(st) && CurrentTurn(st.log) == Some(1) && st.lease == None
            && !LeaseIsCurrent(st, true) && LeaseIsCurrent(st, false)
    ensures Exclusive(START, LATE_CLEAR)
  {
    var w := AfterFollowUp();
    hide Run, Exclusive;
    var w1 := Step(w, LeaseClear);
    assert w1 == w.(store := w.store.(lease := None));
    RunThenStart(INTERRUPTED + Following(1, 200), LeaseClear);
    StartLogs(w1, 1);
    NextTurn(w1.store.log, Entry(StatusUpdate(Status(Working, None)), BySend(1)));
  }
}
