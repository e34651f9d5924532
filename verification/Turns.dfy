// Turns of a task. A send moves it to WORKING; before the next one may, the executor has to
// hand it to the client.
module Turns {
  import opened Wrappers
  import opened Lifecycle
  import opened TaskLog
  import opened AtomicStore
  import opened Protocol
  import opened Safety
  import opened Records
  import opened Runs
  import opened Replaying

  predicate TurnStart(x: Entry) {
    x.event.StatusUpdate? && x.event.status.state.Working? && x.author.BySend?
  }

  predicate HandsOver(x: Entry) {
    x.event.StatusUpdate? && ClientHeld(x.event.status.state)
  }

  /** No turn has started yet, or the client has been handed the task since. */
  predicate Asked(log: seq<Entry>) {
    if log == [] then true
    else
      var x := log[|log| - 1];
      if TurnStart(x) then false else if HandsOver(x) then true else Asked(log[..|log| - 1])
  }

  // Entry k, between i and j, hands the task to the client.
  ghost predicate AskedBetween(log: seq<Entry>, i: nat, j: nat) {
    exists k :: i < k < j && k < |log| && HandsOver(log[k])
  }

  /** Between any two turn starts the client was handed the task: of the follow-ups to one
      interruption at most one starts a turn. */
  ghost predicate TurnsAlternate(st: Store) {
    forall i: nat, j: nat | i < j < |st.log| && TurnStart(st.log[i]) && TurnStart(st.log[j]) ::
      AskedBetween(st.log, i, j)
  }

  lemma {:induction false} AskedSince(log: seq<Entry>)
    ensures Asked(log) <==> forall i: nat | i < |log| && TurnStart(log[i]) :: AskedBetween(log, i, |log|)
  {
    if log != [] {
      var n := |log| - 1;
      var before := log[..n];
      AskedSince(before);
      forall i: nat | i < n && TurnStart(log[i])
        ensures AskedBetween(log, i, |log|) <==> AskedBetween(before, i, n) || HandsOver(log[n])
      {
        if AskedBetween(before, i, n) {
          var k :| i < k < n && HandsOver(before[k]);
          assert HandsOver(log[k]);
        }
        if AskedBetween(log, i, |log|) && !HandsOver(log[n]) {
          var k :| i < k < |log| && HandsOver(log[k]);
          assert HandsOver(before[k]);
        }
      }
      assert forall i: nat | i < n :: before[i] == log[i];
      if TurnStart(log[n]) {
        assert !AskedBetween(log, n, |log|);
      }
    }
  }

  /** The turn of a send starts only if the client has been handed the task since the last. */
  ghost predicate TurnWaits(w: World, l: Label) {
    l.SendStart? && StatusWritten(w, l).Some? ==> Asked(w.store.log)
  }

  lemma BetweenStays(log: seq<Entry>, x: Entry, i: nat, j: nat)
    requires i < j <= |log|
    ensures AskedBetween(log + [x], i, j) <==> AskedBetween(log, i, j)
  {
    if AskedBetween(log, i, j) {
      var k :| i < k < j && k < |log| && HandsOver(log[k]);
      assert HandsOver((log + [x])[k]);
    }
  }

  lemma OneMoreAlternates(st: Store, st': Store, x: Entry)
    requires TurnsAlternate(st) && st'.log == st.log + [x]
    ensures TurnsAlternate(st') <==> (TurnStart(x) ==> Asked(st.log))
  {
    hide Asked, HandsOver, TurnStart, AskedBetween;
    var n := |st.log|;
    AskedSince(st.log);
    forall i: nat, j: nat | i < j <= n ensures AskedBetween(st'.log, i, j) <==> AskedBetween(st.log, i, j) {
      BetweenStays(st.log, x, i, j);
    }
    assert st'.log[n] == x;
    if TurnStart(x) && !Asked(st.log) {
      var i: nat :| i < n && TurnStart(st.log[i]) && !AskedBetween(st.log, i, n);
      assert TurnStart(st'.log[i]) && !AskedBetween(st'.log, i, n);
    }
  }

  lemma StepAlternates(w: World, l: Label)
    requires Inv(w) && TurnsAlternate(w.store)
    ensures TurnsAlternate(Step(w, l).store) <==> TurnWaits(w, l)
  {
    hide Step, Asked, EmitInv, SinkInv, WriterInv, DispatchInv;
    StepStores(w, l);
    var log, log' := w.store.log, Step(w, l).store.log;
    if log' != log {
      hide TurnsAlternate;
      OneMoreAlternates(w.store, Step(w, l).store, log'[|log|]);
    }
  }

  lemma EarlierAlternates(st: Store, st': Store)
    requires st.log <= st'.log && TurnsAlternate(st')
    ensures TurnsAlternate(st)
  {
    forall i: nat, j: nat | i < j < |st.log| && TurnStart(st.log[i]) && TurnStart(st.log[j])
      ensures AskedBetween(st.log, i, j)
    {
      assert TurnStart(st'.log[i]) && TurnStart(st'.log[j]);
      var k :| i < k < j && HandsOver(st'.log[k]);
      assert HandsOver(st.log[k]);
    }
  }

  lemma NoTurns()
    ensures TurnsAlternate(START.store)
  {
  }

  /** In every schedule at most one follow-up to each interruption starts a turn, exactly if
      every turn that the store lets start finds that the client was asked since the last. */
  lemma OneTurnPerInterruption(ls: seq<Label>)
    ensures TurnsAlternate(Run(START, ls).store) <==> EachStep(TurnWaits, ls)
  {
    hide Run, Step, Inv, TurnsAlternate, TurnWaits, EachStep;
    NoTurns();
    forall w, l | Inv(w) && TurnsAlternate(w.store)
      ensures TurnsAlternate(Step(w, l).store) <==> TurnWaits(w, l)
    {
      StepAlternates(w, l);
    }
    forall st: Store, st': Store | st.log <= st'.log && TurnsAlternate(st') ensures TurnsAlternate(st) {
      EarlierAlternates(st, st');
    }
    ExactlyAtTheEnd(TurnsAlternate, TurnWaits, ls);
  }

  // Nothing moves to SUBMITTED, so only the creation says it.
  ghost predicate SubmittedFirst(st: Store) {
    forall i: nat | i < |st.log| && st.log[i].event.StatusUpdate? && st.log[i].event.status.state.Submitted? :: i == 0
  }

  lemma StepKeepsSubmittedFirst(w: World, l: Label)
    requires Inv(w) && SubmittedFirst(w.store)
    ensures SubmittedFirst(Step(w, l).store)
  {
    hide Step, EmitInv, SinkInv, WriterInv, DispatchInv;
    StepStores(w, l);
  }

  lemma {:induction false} ReachesSubmittedFirst(ls: seq<Label>)
    ensures SubmittedFirst(Run(START, ls).store)
  {
    if ls != [] {
      hide Step, Inv, SubmittedFirst;
      ReachesSubmittedFirst(ls[..|ls| - 1]);
      ReachesInv(ls[..|ls| - 1]);
      StepKeepsSubmittedFirst(Run(START, ls[..|ls| - 1]), ls[|ls| - 1]);
    }
  }

  /** A log whose replayed status is one from which a turn can start says that the client was
      asked. */
  lemma {:induction false} ReplayedStatusWasAsked(log: seq<Entry>)
    requires ValidateTransition(Replay(log).status.state, Working).Allowed?
    requires forall i: nat | i < |log| && log[i].event.StatusUpdate? && log[i].event.status.state.Submitted? :: i == 0
    ensures Asked(log)
  {
    if log != [] {
      var n := |log| - 1;
      var before, x := log[..n], log[n];
      assert log == before + [x];
      OneMoreReplays(before, x);
      hide Replay;
      if x.event.ArtifactUpdate? {
        assert forall i: nat | i < n :: before[i] == log[i];
        ReplayedStatusWasAsked(before);
      } else if x.event.status.state.Submitted? {
        assert before == [];
      }
    }
  }

  /** In every schedule: a turn that the store lets start although the client was not asked
      since the last one stands on a status that a stale artifact commit put back. */
  lemma EarlyTurnStandsOnAStaleStatus(ls: seq<Label>, n: nat) returns (m: nat)
    requires n < |ls| && !TurnWaits(Run(START, ls[..n]), ls[n])
    ensures PutBack(ls, m, n)
  {
    hide Run, Asked, Replay, PutBack;
    var w := Run(START, ls[..n]);
    if StatusReplays(w.store) {
      ReachesSubmittedFirst(ls[..n]);
      ReplayedStatusWasAsked(w.store.log);
    }
    m := WrongStatusWasPutBack(ls, n);
  }

  /** It is so when the log is legal, and so when every artifact commit read the stored status. */
  lemma LegalTurnsAlternate(ls: seq<Label>)
    requires EachStep(LegalStep, ls) || EachStep(ReadsStatus, ls)
    ensures TurnsAlternate(Run(START, ls).store)
  {
    hide Run, EachStep, LegalStep, ReadsStatus;
    if EachStep(ReadsStatus, ls) {
      StatusKeepsLegal(ls);
    }
    LegalExactly(ls);
    var st := Run(START, ls).store;
    forall i: nat, j: nat | i < j < |st.log| && TurnStart(st.log[i]) && TurnStart(st.log[j])
      ensures AskedBetween(st.log, i, j)
    {
      WorkingNeedsAnInterrupt(st.log, i, j);
    }
  }
}
