// What holds throughout a schedule, and which steps keep it. A property of the store is met
// by its exact condition on a step; the schedules that keep the property are then those whose
// every step meets the condition.
module Runs {
  import opened Protocol
  import opened AtomicStore
  import opened Safety

  /** After every prefix of the schedule the store is as p says. */
  ghost predicate Always(p: Store -> bool, ls: seq<Label>) {
    forall n | 0 <= n <= |ls| :: p(Run(START, ls[..n]).store)
  }

  /** Every step of the schedule meets c in the state it is taken in. */
  ghost predicate EachStep(c: (World, Label) -> bool, ls: seq<Label>) {
    forall n | 0 <= n < |ls| :: c(Run(START, ls[..n]), ls[n])
  }

  lemma {:induction false} ReachesInv(ls: seq<Label>)
    ensures Inv(Run(START, ls))
  {
    if ls != [] {
      ReachesInv(ls[..|ls| - 1]);
      StepKeepsInv(Run(START, ls[..|ls| - 1]), ls[|ls| - 1]);
    }
  }

  lemma {:induction false} LogsGrow(ls: seq<Label>, n: nat)
    requires n <= |ls|
    ensures Run(START, ls[..n]).store.log <= Run(START, ls).store.log
  {
    if n == |ls| {
      assert ls[..n] == ls;
    } else {
      var before := ls[..|ls| - 1];
      assert before[..n] == ls[..n];
      LogsGrow(before, n);
      ReachesInv(before);
      StepKeepsInv(Run(START, before), ls[|ls| - 1]);
    }
  }

  lemma AlwaysBefore(p: Store -> bool, ls: seq<Label>)
    requires ls != []
    ensures Always(p, ls) <==> Always(p, ls[..|ls| - 1]) && p(Run(START, ls).store)
  {
    hide Run;
    var before := ls[..|ls| - 1];
    assert ls[..|ls|] == ls;
    if Always(p, ls) {
      forall n | 0 <= n <= |before| ensures p(Run(START, before[..n]).store) {
        assert before[..n] == ls[..n];
      }
    }
    if Always(p, before) && p(Run(START, ls).store) {
      forall n | 0 <= n <= |ls| ensures p(Run(START, ls[..n]).store) {
        assert n < |ls| ==> before[..n] == ls[..n];
      }
    }
  }

  lemma EachStepBefore(c: (World, Label) -> bool, ls: seq<Label>)
    requires ls != []
    ensures EachStep(c, ls) <==>
              EachStep(c, ls[..|ls| - 1]) && c(Run(START, ls[..|ls| - 1]), ls[|ls| - 1])
  {
    hide Run;
    var before := ls[..|ls| - 1];
    if EachStep(c, ls) {
      forall n | 0 <= n < |before| ensures c(Run(START, before[..n]), before[n]) {
        assert before[..n] == ls[..n] && before[n] == ls[n];
      }
    }
    if EachStep(c, before) && c(Run(START, before), ls[|ls| - 1]) {
      forall n | 0 <= n < |ls| ensures c(Run(START, ls[..n]), ls[n]) {
        assert n < |before| ==> before[..n] == ls[..n] && before[n] == ls[n];
      }
    }
  }

  /** If c is when a step keeps p, then p holds throughout exactly if every step meets c. */
  lemma {:induction false} Exactly(p: Store -> bool, c: (World, Label) -> bool, ls: seq<Label>)
    requires p(START.store)
    requires forall w, l | Inv(w) && p(w.store) :: p(Step(w, l).store) <==> c(w, l)
    ensures Always(p, ls) <==> EachStep(c, ls)
  {
    hide Step, Inv, Always, EachStep;
    if ls == [] {
      NoSteps(p, c);
    } else {
      var before := ls[..|ls| - 1];
      Exactly(p, c, before);
      AlwaysBefore(p, ls);
      EachStepBefore(c, ls);
      if Always(p, before) {
        AlwaysAtTheEnd(p, before);
        ReachesInv(before);
      }
    }
  }

  lemma NoSteps(p: Store -> bool, c: (World, Label) -> bool)
    requires p(START.store)
    ensures Always(p, []) && EachStep(c, [])
  {
    var none: seq<Label> := [];
    assert none[..0] == [];
  }

  lemma AlwaysAtTheEnd(p: Store -> bool, ls: seq<Label>)
    requires Always(p, ls)
    ensures p(Run(START, ls).store)
  {
    hide Run;
    assert ls[..|ls|] == ls;
  }

  /** A property that the log of a later state passes on to earlier ones need only hold at
      the end. */
  lemma ExactlyAtTheEnd(p: Store -> bool, c: (World, Label) -> bool, ls: seq<Label>)
    requires p(START.store)
    requires forall w, l | Inv(w) && p(w.store) :: p(Step(w, l).store) <==> c(w, l)
    requires forall st: Store, st': Store | st.log <= st'.log && p(st') :: p(st)
    ensures p(Run(START, ls).store) <==> EachStep(c, ls)
  {
    Exactly(p, c, ls);
    hide Run, Step, Inv, EachStep;
    if p(Run(START, ls).store) {
      forall n | 0 <= n <= |ls| ensures p(Run(START, ls[..n]).store) {
        LogsGrow(ls, n);
      }
    } else if Always(p, ls) {
      AlwaysAtTheEnd(p, ls);
    }
  }
}
