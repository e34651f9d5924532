// Whose lease it is. The reaper fails an executor-held task whose lease has run out, so the
// lease has to be the one of the turn that the task is in.
module Leases {
  import opened Wrappers
  import opened Lifecycle
  import opened TaskLog
  import opened AtomicStore
  import opened Protocol
  import opened Footprints
  import opened Safety
  import opened Records
  import opened Runs
  import opened Replaying
  import opened Turns

  /** The send whose turn it is: the one that last moved the task to WORKING. */
  function CurrentTurn(log: seq<Entry>): Option<Id> {
    if log == [] then None
    else if TurnStart(log[|log| - 1]) then Some(log[|log| - 1].author.id)
    else CurrentTurn(log[..|log| - 1])
  }

  /** The lease is that turn's. Without one, only a strict reading complains. */
  predicate Fits(lease: Option<Lease>, turn: Id, strict: bool) {
    match lease
    case None => !strict
    case Some(l) => l.send == turn
  }

  ghost predicate Held(st: Store) {
    st.task.Some? && ExecutorHeld(st.task.value.status.state)
  }

  /** While the task is executor-held in a turn, its lease is that turn's: never another's,
      and, read strictly, never missing. */
  ghost predicate LeaseIsCurrent(st: Store, strict: bool) {
    Held(st) && CurrentTurn(st.log).Some? ==> Fits(st.lease, CurrentTurn(st.log).value, strict)
  }

  // A lease of send `holder` may be written: the task is not executor-held, or in its turn.
  ghost predicate MayLease(st: Store, holder: Id) {
    Held(st) && CurrentTurn(st.log).Some? ==> CurrentTurn(st.log).value == holder
  }

  // The lease is the one the task needs once it is executor-held.
  ghost predicate ReadyToHold(st: Store, strict: bool) {
    CurrentTurn(st.log).Some? ==> Fits(st.lease, CurrentTurn(st.log).value, strict)
  }

  // The state that emit e is about to store, if the store will let it.
  ghost function MovesTo(w: World, e: Id): Option<TaskState> {
    var l := EmitCommit(e);
    if WritesBack(w, l) then Some(w.emits[e].pc.task.status.state)
    else match StatusWritten(w, l)
      case Some(status) => Some(status.state)
      case None => None
  }

  /** What each kind of step has to find so that the lease is current after it. A turn starts
      on its own lease. A lease is written, renewed or cleared while the client holds the
      task, or by the turn that runs (which is not to clear it). An emit that moves the task
      back to the executor finds the running turn's lease. */
  ghost predicate Timely(w: World, l: Label, strict: bool) {
    match l
    case SendStart(s) => StatusWritten(w, l).Some? ==> Fits(w.store.lease, s, strict)
    case SendLease(s, expires) =>
      (s in w.sends && w.sends[s].pc.Recorded? && expires.Some?) ==> MayLease(w.store, s)
    case LeaseRenew(f, _) => f in w.sinks ==> MayLease(w.store, w.sinks[f].origin)
    case LeaseClear => (strict && Held(w.store)) ==> CurrentTurn(w.store.log).None?
    case EmitCommit(e) => (MovesTo(w, e).Some? && ExecutorHeld(MovesTo(w, e).value)) ==> ReadyToHold(w.store, strict)
    case _ => true
  }

  // ---- One step ----

  lemma NextTurn(log: seq<Entry>, x: Entry)
    ensures CurrentTurn(log + [x]) == if TurnStart(x) then Some(x.author.id) else CurrentTurn(log)
  {
    assert (log + [x])[..|log|] == log;
  }

  lemma StartNeedsItsLease(w: World, s: Id, strict: bool)
    requires LeaseIsCurrent(w.store, strict)
    ensures LeaseIsCurrent(Step(w, SendStart(s)).store, strict) <==> Timely(w, SendStart(s), strict)
  {
    NextTurn(w.store.log, Entry(StatusUpdate(Status(Working, None)), BySend(s)));
  }

  lemma CreationIsNoTurn(w: World, s: Id, strict: bool)
    requires Consistent(w.store) && LeaseIsCurrent(w.store, strict)
    ensures LeaseIsCurrent(Step(w, SendRecord(s)).store, strict)
  {
    NextTurn([], Entry(StatusUpdate(Status(Submitted, None)), BySend(s)));
  }

  lemma LeaseNeedsItsTurn(w: World, s: Id, expires: Option<int>, strict: bool)
    requires LeaseIsCurrent(w.store, strict)
    ensures LeaseIsCurrent(Step(w, SendLease(s, expires)).store, strict) <==> Timely(w, SendLease(s, expires), strict)
  {
  }

  lemma OtherSendsLeaveLeases(w: World, l: Label, strict: bool)
    requires IsSendLabel(l) && !l.SendRecord? && !l.SendLease? && !l.SendStart? && LeaseIsCurrent(w.store, strict)
    ensures LeaseIsCurrent(Step(w, l).store, strict)
  {
    assert StepSend(w, l).store == w.store;
  }

  lemma StatusCommitNeedsTheLease(w: World, e: Id, strict: bool)
    requires LeaseIsCurrent(w.store, strict)
    requires e in w.emits && w.emits[e].sink in w.sinks && w.emits[e].op.EmitStatus? && w.emits[e].pc.Holding?
    ensures LeaseIsCurrent(StepCommit(w, e).store, strict) <==> Timely(w, EmitCommit(e), strict)
  {
    hide StepCommit;
    CommitStore(w, e);
    NextTurn(w.store.log, Entry(StatusUpdate(w.emits[e].op.status), ByEmit(e)));
  }

  lemma WriteBackNeedsTheLease(w: World, e: Id, strict: bool)
    requires LeaseIsCurrent(w.store, strict)
    requires e in w.emits && w.emits[e].sink in w.sinks && w.emits[e].op.EmitArtifact? && w.emits[e].pc.HasRead?
    ensures LeaseIsCurrent(StepCommit(w, e).store, strict) <==> Timely(w, EmitCommit(e), strict)
  {
    hide StepCommit;
    CommitStore(w, e);
    NextTurn(w.store.log, Entry(EventOf(w.emits[e].op), ByEmit(e)));
  }

  lemma EmitNeedsTheLease(w: World, l: Label, strict: bool)
    requires IsEmitLabel(l) && LeaseIsCurrent(w.store, strict)
    ensures LeaseIsCurrent(Step(w, l).store, strict) <==> Timely(w, l, strict)
  {
    if !l.EmitCommit? {
      OnlyCommitTouchesStore(w, l);
    } else if l.e in w.emits && w.emits[l.e].sink in w.sinks
              && (if w.emits[l.e].op.EmitStatus? then w.emits[l.e].pc.Holding? else w.emits[l.e].pc.HasRead?) {
      if w.emits[l.e].op.EmitStatus? {
        StatusCommitNeedsTheLease(w, l.e, strict);
      } else {
        WriteBackNeedsTheLease(w, l.e, strict);
      }
    }
  }

  lemma RenewalNeedsItsTurn(w: World, l: Label, strict: bool)
    requires LeaseIsCurrent(w.store, strict) && (l.LeaseRenew? || l.LeaseClear?)
    ensures LeaseIsCurrent(Step(w, l).store, strict) <==> Timely(w, l, strict)
  {
  }

  lemma WriterLeavesLease(w: World, h: Id, strict: bool)
    requires LeaseIsCurrent(w.store, strict) && h in w.writers && IsTerminal(w.writers[h].status.state)
    ensures LeaseIsCurrent(StepWriterCommit(w, h).store, strict)
  {
    NextTurn(w.store.log, Entry(StatusUpdate(w.writers[h].status), ByWriter(h)));
  }

  lemma OthersLeaveLeases(w: World, l: Label, strict: bool)
    requires Inv(w) && LeaseIsCurrent(w.store, strict)
    requires !IsSendLabel(l) && !IsEmitLabel(l) && !l.LeaseRenew? && !l.LeaseClear?
    ensures LeaseIsCurrent(Step(w, l).store, strict)
  {
    hide CurrentTurn;
    if l.WriterCommit? {
      hide LeaseIsCurrent, StepWriterCommit;
      if l.h in w.writers {
        assert WriterOk(w, l.h);
        WriterLeavesLease(w, l.h, strict);
      }
    } else {
      LeavesLease(w, l);
    }
  }

  lemma LeavesLease(w: World, l: Label)
    requires !IsSendLabel(l) && !IsEmitLabel(l) && !l.LeaseRenew? && !l.LeaseClear? && !l.WriterCommit?
    ensures var st := Step(w, l).store; st.lease == w.store.lease && st.task == w.store.task && st.log == w.store.log
  {
  }

  /** From a current lease, a step leaves a current lease exactly if it is timely. */
  lemma StepKeepsLease(w: World, l: Label, strict: bool)
    requires Inv(w) && LeaseIsCurrent(w.store, strict)
    ensures LeaseIsCurrent(Step(w, l).store, strict) <==> Timely(w, l, strict)
  {
    hide LeaseIsCurrent;
    if IsSendLabel(l) {
      match l
      case SendStart(s) => StartNeedsItsLease(w, s, strict);
      case SendRecord(s) => CreationIsNoTurn(w, s, strict);
      case SendLease(s, expires) => LeaseNeedsItsTurn(w, s, expires, strict);
      case _ => OtherSendsLeaveLeases(w, l, strict);
    } else if IsEmitLabel(l) {
      EmitNeedsTheLease(w, l, strict);
    } else if l.LeaseRenew? || l.LeaseClear? {
      RenewalNeedsItsTurn(w, l, strict);
    } else {
      OthersLeaveLeases(w, l, strict);
    }
  }

  // ---- Every schedule ----

  ghost function Current(strict: bool): Store -> bool {
    st => LeaseIsCurrent(st, strict)
  }

  ghost function InTime(strict: bool): (World, Label) -> bool {
    (w, l) => Timely(w, l, strict)
  }

  /** In every schedule the lease is current throughout exactly if every step is timely. */
  lemma LeasesExactly(ls: seq<Label>, strict: bool)
    ensures Always(Current(strict), ls) <==> EachStep(InTime(strict), ls)
  {
    hide Run, Step, Inv, Timely, LeaseIsCurrent, Always, EachStep;
    assert Current(strict)(START.store) by { StartIsCurrent(strict); }
    forall w, l | Inv(w) && Current(strict)(w.store)
      ensures Current(strict)(Step(w, l).store) <==> InTime(strict)(w, l)
    {
      StepKeepsLease(w, l, strict);
    }
    Exactly(Current(strict), InTime(strict), ls);
  }

  lemma StartIsCurrent(strict: bool)
    ensures LeaseIsCurrent(START.store, strict)
  {
  }
}
