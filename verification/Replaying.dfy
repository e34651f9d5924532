// Replay: when the stored row is what its event log replays to, exactly.
//
// Every write but one derives the new row from the stored one. commit_artifact replaces the
// whole row from an earlier read.
module Replaying {
  import opened Wrappers
  import opened Lifecycle
  import opened TaskLog
  import opened AtomicStore
  import opened Protocol
  import opened Footprints
  import opened Safety
  import opened Records
  import opened Runs

  // ---- What a step stores ----

  // An artifact commit that the store will accept.
  ghost predicate WritesBack(w: World, l: Label) {
    && l.EmitCommit? && l.e in w.emits && w.emits[l.e].sink in w.sinks
    && w.emits[l.e].op.EmitArtifact? && w.emits[l.e].pc.HasRead?
    && w.store.task.Some? && !Terminal(w.store)
  }

  // The store takes this status from where the task is.
  ghost predicate Takes(st: Store, status: Status) {
    st.task.Some? && ValidateTransition(st.task.value.status.state, status.state).Allowed?
  }

  // The status of a status write that the store will accept.
  ghost function StatusWritten(w: World, l: Label): Option<Status> {
    match l
    case SendStart(s) =>
      var working := Status(Working, None);
      if s in w.sends && w.sends[s].pc.Leased? && Takes(w.store, working) then Some(working) else None
    case EmitCommit(e) =>
      if e in w.emits && w.emits[e].sink in w.sinks && w.emits[e].op.EmitStatus? && w.emits[e].pc.Holding?
         && Takes(w.store, w.emits[e].op.status)
      then Some(w.emits[e].op.status)
      else None
    case WriterCommit(h) =>
      if h in w.writers && w.writers[h].pc.Ready? && Takes(w.store, w.writers[h].status)
      then Some(w.writers[h].status)
      else None
    case _ => None
  }

  // The task is created.
  ghost predicate Creates(w: World, l: Label) {
    && l.SendRecord? && l.s in w.sends && w.sends[l.s].pc.Resolved? && !w.sends[l.s].followUp
    && w.store.task.None?
  }

  // The row and the log that a step leaves.
  ghost predicate Stores(st: Store, st': Store, w: World, l: Label) {
    if WritesBack(w, l) then
      && st'.task == Some(Merged(w.emits[l.e].pc.task, w.emits[l.e].op))
      && st'.log == st.log + [Entry(EventOf(w.emits[l.e].op), Stepper(l))]
    else if StatusWritten(w, l).Some? then
      && st.task.Some? && st'.task == Some(st.task.value.(status := StatusWritten(w, l).value))
      && st'.log == st.log + [Entry(StatusUpdate(StatusWritten(w, l).value), Stepper(l))]
    else if Creates(w, l) then
      && st'.task.Some? && ViewOf(st'.task.value) == CREATED
      && st'.log == st.log + [Entry(StatusUpdate(CREATED.status), Stepper(l))]
    else
      && (st'.task.Some? <==> st.task.Some?) && st'.log == st.log
      && (st.task.Some? ==> ViewOf(st'.task.value) == ViewOf(st.task.value))
  }

  lemma SendStores(w: World, l: Label)
    requires IsSendLabel(l)
    ensures Stores(w.store, StepSend(w, l).store, w, l)
  {
    if !l.SendRecord? && !l.SendStart? {
      OnlyRecordAndStartTouchTask(w, l);
    }
  }

  lemma CommitStore(w: World, e: Id)
    requires e in w.emits && w.emits[e].sink in w.sinks
    requires w.emits[e].op.EmitArtifact? ==> w.emits[e].pc.HasRead?
    ensures StepCommit(w, e).store == match EmitWrite(w.store, w.emits[e], e)
                                      case Ok(x) => x.store
                                      case Err(_) => w.store
  {
  }

  lemma EmitStores(w: World, l: Label)
    requires IsEmitLabel(l)
    ensures Stores(w.store, StepEmit(w, l).store, w, l)
  {
    if !l.EmitCommit? {
      OnlyCommitTouchesStore(w, l);
    } else if l.e in w.emits && w.emits[l.e].sink in w.sinks
              && (if w.emits[l.e].op.EmitStatus? then w.emits[l.e].pc.Holding? else w.emits[l.e].pc.HasRead?) {
      hide StepCommit;
      CommitStore(w, l.e);
    }
  }

  lemma OtherStores(w: World, l: Label)
    requires !IsSendLabel(l) && !IsEmitLabel(l)
    ensures Stores(w.store, StepOther(w, l).store, w, l)
  {
    if !l.WriterCommit? {
      OtherTouches(w, l);
    }
  }

  lemma StepStores(w: World, l: Label)
    ensures Stores(w.store, Step(w, l).store, w, l)
  {
    hide Stores;
    if IsSendLabel(l) {
      SendStores(w, l);
    } else if IsEmitLabel(l) {
      EmitStores(w, l);
    } else {
      OtherStores(w, l);
    }
  }

  // ---- The status ----

  ghost predicate StatusReplays(st: Store) {
    st.task.Some? ==> st.task.value.status == Replay(st.log).status
  }

  /** An artifact commit has read the status that is stored. */
  ghost predicate ReadsStatus(w: World, l: Label) {
    WritesBack(w, l) ==> w.emits[l.e].pc.task.status == w.store.task.value.status
  }

  lemma StepReplaysStatus(w: World, l: Label)
    requires Inv(w) && StatusReplays(w.store)
    ensures StatusReplays(Step(w, l).store) <==> ReadsStatus(w, l)
  {
    hide Step, Replay, EmitInv, SinkInv, WriterInv, DispatchInv;
    StepStores(w, l);
    var log, log' := w.store.log, Step(w, l).store.log;
    if log' != log {
      OneMoreReplays(log, log'[|log|]);
      NothingReplays();
    }
  }

  lemma NothingReplays()
    ensures Replay([]) == CREATED
  {
  }

  /** In every schedule the row's status is the replayed one throughout exactly if every
      artifact commit that the store accepts has read the stored status. */
  lemma StatusExactly(ls: seq<Label>)
    ensures Always(StatusReplays, ls) <==> EachStep(ReadsStatus, ls)
  {
    hide Run, Step, Inv, StatusReplays, ReadsStatus, Always, EachStep;
    assert StatusReplays(START.store) by { NothingStored(); }
    forall w, l | Inv(w) && StatusReplays(w.store) ensures StatusReplays(Step(w, l).store) <==> ReadsStatus(w, l) {
      StepReplaysStatus(w, l);
    }
    Exactly(StatusReplays, ReadsStatus, ls);
  }

  lemma NothingStored()
    ensures StatusReplays(START.store) && ArtifactsReplay(START.store) && AddsUp(START.store) && Legal(START.store)
  {
  }

  // ---- The artifacts ----

  ghost predicate ArtifactsReplay(st: Store) {
    st.task.Some? ==> st.task.value.artifacts == Replay(st.log).artifacts
  }

  /** An artifact commit merges into the artifacts it has read as it would into those stored. */
  ghost predicate MergesAlike(w: World, l: Label) {
    WritesBack(w, l) ==>
      var x, t := w.emits[l.e], w.store.task.value;
      MergeArtifact(x.pc.task.artifacts, x.op.artifact, x.op.append)
        == MergeArtifact(t.artifacts, x.op.artifact, x.op.append)
  }

  lemma StepReplaysArtifacts(w: World, l: Label)
    requires Inv(w) && ArtifactsReplay(w.store)
    ensures ArtifactsReplay(Step(w, l).store) <==> MergesAlike(w, l)
  {
    hide Step, Replay, MergeArtifact, EmitInv, SinkInv, WriterInv, DispatchInv;
    StepStores(w, l);
    var log, log' := w.store.log, Step(w, l).store.log;
    if log' != log {
      OneMoreReplays(log, log'[|log|]);
      NothingReplays();
    }
  }

  /** In every schedule the row's artifacts are the replayed ones throughout exactly if every
      artifact commit that the store accepts merges alike. */
  lemma ArtifactsExactly(ls: seq<Label>)
    ensures Always(ArtifactsReplay, ls) <==> EachStep(MergesAlike, ls)
  {
    hide Run, Step, Inv, ArtifactsReplay, MergesAlike, Always, EachStep;
    assert ArtifactsReplay(START.store) by { NothingStored(); }
    forall w, l | Inv(w) && ArtifactsReplay(w.store)
      ensures ArtifactsReplay(Step(w, l).store) <==> MergesAlike(w, l)
    {
      StepReplaysArtifacts(w, l);
    }
    Exactly(ArtifactsReplay, MergesAlike, ls);
  }

  // ---- The number of parts ----

  /** The row has as many parts as its artifact events carried. */
  ghost predicate AddsUp(st: Store) {
    st.task.Some? ==> PartCount(st.task.value.artifacts) == EmittedParts(st.log)
  }

  /** An artifact commit has read as many parts as are stored. */
  ghost predicate FullRead(w: World, l: Label) {
    WritesBack(w, l) ==> PartCount(w.emits[l.e].pc.task.artifacts) == PartCount(w.store.task.value.artifacts)
  }

  lemma OneMoreEmits(log: seq<Entry>, x: Entry)
    ensures EmittedParts(log + [x]) == EmittedParts(log) + PartsIn(x.event)
  {
    assert (log + [x])[..|log|] == log;
  }

  lemma StepAddsUp(w: World, l: Label)
    requires Inv(w) && AddsUp(w.store)
    ensures AddsUp(Step(w, l).store) <==> FullRead(w, l)
  {
    hide Step, MergeArtifact, PartCount, EmittedParts, EmitInv, SinkInv, WriterInv, DispatchInv;
    StepStores(w, l);
    var log, log' := w.store.log, Step(w, l).store.log;
    NothingCounts();
    if log' != log {
      OneMoreEmits(log, log'[|log|]);
    }
    if WritesBack(w, l) {
      var x := w.emits[l.e];
      MergeAddsParts(x.pc.task.artifacts, x.op.artifact, x.op.append);
    }
  }

  lemma NothingCounts()
    ensures EmittedParts([]) == 0 && PartCount([]) == 0
  {
  }

  /** In every schedule the parts add up throughout exactly if every artifact commit that the
      store accepts has read as many parts as are stored. */
  lemma PartsExactly(ls: seq<Label>)
    ensures Always(AddsUp, ls) <==> EachStep(FullRead, ls)
  {
    hide Run, Step, Inv, AddsUp, FullRead, Always, EachStep;
    assert AddsUp(START.store) by { NothingStored(); }
    forall w, l | Inv(w) && AddsUp(w.store) ensures AddsUp(Step(w, l).store) <==> FullRead(w, l) {
      StepAddsUp(w, l);
    }
    Exactly(AddsUp, FullRead, ls);
  }

  // ---- Status and artifacts ----

  ghost predicate RowIsReplay(st: Store) {
    st.task.Some? ==> ViewOf(st.task.value) == Replay(st.log)
  }

  ghost predicate CleanStep(w: World, l: Label) {
    ReadsStatus(w, l) && MergesAlike(w, l)
  }

  /** A step from a row that replays keeps it exactly if it is no artifact commit, or a clean one. */
  lemma StepReplays(w: World, l: Label)
    requires Inv(w) && RowIsReplay(w.store)
    ensures RowIsReplay(Step(w, l).store) <==> CleanStep(w, l)
  {
    hide Step, Replay, Inv, ReadsStatus, MergesAlike;
    StepReplaysStatus(w, l);
    StepReplaysArtifacts(w, l);
  }

  /** In every schedule, with no hypothesis: the row stays the replay of its log throughout
      exactly if every artifact commit that the store accepts is clean. */
  lemma ReplayExactly(ls: seq<Label>)
    ensures Always(RowIsReplay, ls) <==> EachStep(CleanStep, ls)
  {
    hide Run, Step, Inv, RowIsReplay, CleanStep, Always, EachStep;
    assert RowIsReplay(START.store) by { NothingAtTheStart(); }
    forall w, l | Inv(w) && RowIsReplay(w.store) ensures RowIsReplay(Step(w, l).store) <==> CleanStep(w, l) {
      StepReplays(w, l);
    }
    Exactly(RowIsReplay, CleanStep, ls);
  }

  lemma NothingAtTheStart()
    ensures RowIsReplay(START.store)
  {
  }

  // ---- The log ----

  ghost predicate Legal(st: Store) {
    st.log != [] ==> LegalLog(st.log)
  }

  /** A status write is allowed from the replayed status too, not only from the stored one. */
  ghost predicate LegalStep(w: World, l: Label) {
    StatusWritten(w, l).Some? ==>
      ValidateTransition(Replay(w.store.log).status.state, StatusWritten(w, l).value.state).Allowed?
  }

  lemma StepIsLegal(w: World, l: Label)
    requires Inv(w) && Legal(w.store)
    ensures Legal(Step(w, l).store) <==> LegalStep(w, l)
  {
    hide Step, Replay, LegalLog, EmitInv, SinkInv, WriterInv, DispatchInv;
    StepStores(w, l);
    var log, log' := w.store.log, Step(w, l).store.log;
    if log' != log {
      OneMoreIsLegal(log, log'[|log|]);
    }
  }

  lemma EarlierIsLegal(st: Store, st': Store)
    requires st.log <= st'.log && Legal(st')
    ensures Legal(st)
  {
    if st.log != [] {
      LegalPrefix(st'.log, |st.log|);
      assert st'.log[..|st.log|] == st.log;
    }
  }

  /** In every schedule the log is legal exactly if every status write that the store accepts
      is allowed from the replayed status. */
  lemma LegalExactly(ls: seq<Label>)
    ensures Legal(Run(START, ls).store) <==> EachStep(LegalStep, ls)
  {
    hide Run, Step, Inv, Legal, LegalStep, EachStep;
    assert Legal(START.store) by { NothingStored(); }
    forall w, l | Inv(w) && Legal(w.store) ensures Legal(Step(w, l).store) <==> LegalStep(w, l) {
      StepIsLegal(w, l);
    }
    forall st: Store, st': Store | st.log <= st'.log && Legal(st') ensures Legal(st) {
      EarlierIsLegal(st, st');
    }
    ExactlyAtTheEnd(Legal, LegalStep, ls);
  }

  ghost predicate Opened(st: Store) {
    st.log != [] ==> st.log[0].event == StatusUpdate(CREATED.status)
  }

  lemma StepKeepsOpened(w: World, l: Label)
    requires Inv(w) && Opened(w.store)
    ensures Opened(Step(w, l).store)
  {
    hide Step, EmitInv, SinkInv, WriterInv, DispatchInv;
    StepStores(w, l);
  }

  lemma {:induction false} LogsOpenWithCreation(ls: seq<Label>)
    ensures Opened(Run(START, ls).store)
  {
    if ls != [] {
      hide Step, Opened;
      LogsOpenWithCreation(ls[..|ls| - 1]);
      ReachesInv(ls[..|ls| - 1]);
      StepKeepsOpened(Run(START, ls[..|ls| - 1]), ls[|ls| - 1]);
    }
  }

  /** In every schedule the status events form a path of the state machine exactly if every
      status write that the store accepts is allowed from the replayed status. */
  lemma PathExactly(ls: seq<Label>)
    ensures Path(Statuses(Run(START, ls).store.log)) <==> EachStep(LegalStep, ls)
  {
    hide Run, EachStep, LegalStep, Path;
    LegalExactly(ls);
    LogsOpenWithCreation(ls);
    var log := Run(START, ls).store.log;
    if log != [] {
      LegalIsAPath(log);
    } else {
      NoStatuses();
    }
  }

  lemma NoStatuses()
    ensures Path(Statuses([]))
  {
  }

  // ---- How the conditions relate ----

  /** What the store allows from a row whose status replays, the log allows. */
  lemma StatusKeepsLegal(ls: seq<Label>)
    requires EachStep(ReadsStatus, ls)
    ensures EachStep(LegalStep, ls)
  {
    StatusExactly(ls);
    hide Run, ReadsStatus;
    forall n | 0 <= n < |ls| ensures LegalStep(Run(START, ls[..n]), ls[n]) {
      assert StatusReplays(Run(START, ls[..n]).store);
    }
  }

  /** The row's status at moment n is one that a stale artifact commit, step m, put back; no
      status has been written since. */
  ghost predicate PutBack(ls: seq<Label>, m: nat, n: nat) {
    && m < n <= |ls|
    && var w, now := Run(START, ls[..m]), Run(START, ls[..n]).store;
       && WritesBack(w, ls[m]) && !ReadsStatus(w, ls[m])
       && now.task.Some? && now.task.value.status == w.emits[ls[m].e].pc.task.status
       && forall k | m < k < n :: NoStatusAt(ls, k)
  }

  ghost predicate NoStatusAt(ls: seq<Label>, k: nat)
    requires k < |ls|
  {
    StatusWritten(Run(START, ls[..k]), ls[k]).None?
  }

  lemma WriteRestores(w: World, l: Label)
    requires Inv(w) && (StatusWritten(w, l).Some? || Creates(w, l))
    ensures StatusReplays(Step(w, l).store)
  {
    hide Step, Replay, EmitInv, SinkInv, WriterInv, DispatchInv;
    StepStores(w, l);
    OneMoreReplays(w.store.log, Step(w, l).store.log[|w.store.log|]);
    NothingReplays();
  }

  lemma StatusStays(w: World, l: Label)
    requires StatusWritten(w, l).None? && !Creates(w, l) && ReadsStatus(w, l) && w.store.task.Some?
    ensures Step(w, l).store.task.Some? && Step(w, l).store.task.value.status == w.store.task.value.status
  {
    hide Step;
    StepStores(w, l);
  }

  /** Whenever the row's status is not the replayed one, a stale artifact commit put it there. */
  lemma {:induction false} WrongStatusWasPutBack(ls: seq<Label>, n: nat) returns (m: nat)
    requires n <= |ls| && !StatusReplays(Run(START, ls[..n]).store)
    ensures PutBack(ls, m, n)
  {
    hide Step, Inv, ReadsStatus, StatusReplays, WritesBack, StatusWritten, Creates;
    if n == 0 {
      assert ls[..n] == [];
      NothingStored();
      assert false;
    } else {
      var w, l := Run(START, ls[..n - 1]), ls[n - 1];
      assert ls[..n][..n - 1] == ls[..n - 1];
      ReachesInv(ls[..n - 1]);
      if StatusWritten(w, l).Some? || Creates(w, l) {
        WriteRestores(w, l);
      }
      if !ReadsStatus(w, l) {
        m := n - 1;
        WritesItsRead(w, l);
      } else {
        if StatusReplays(w.store) {
          StepReplaysStatus(w, l);
        }
        m := WrongStatusWasPutBack(ls, n - 1);
        StatusStays(w, l);
        forall k | m < k < n ensures NoStatusAt(ls, k) {
          assert k < n - 1 ==> NoStatusAt(ls, k);
        }
      }
    }
  }

  lemma WritesItsRead(w: World, l: Label)
    requires !ReadsStatus(w, l)
    ensures WritesBack(w, l)
    ensures Step(w, l).store.task.Some? && Step(w, l).store.task.value.status == w.emits[l.e].pc.task.status
  {
    hide Step;
    StepStores(w, l);
  }

  /** A status write that the store accepts and the log does not allow stands on a status that
      a stale artifact commit put back. */
  lemma IllegalWriteStandsOnAStaleStatus(ls: seq<Label>, n: nat) returns (m: nat)
    requires n < |ls| && !LegalStep(Run(START, ls[..n]), ls[n])
    ensures PutBack(ls, m, n)
  {
    hide Run, Replay, PutBack;
    m := WrongStatusWasPutBack(ls, n);
  }

  lemma CleanSplits(ls: seq<Label>)
    ensures EachStep(CleanStep, ls) <==> EachStep(ReadsStatus, ls) && EachStep(MergesAlike, ls)
  {
    hide Run, ReadsStatus, MergesAlike;
    if EachStep(CleanStep, ls) {
      forall n | 0 <= n < |ls|
        ensures ReadsStatus(Run(START, ls[..n]), ls[n]) && MergesAlike(Run(START, ls[..n]), ls[n])
      {
        assert CleanStep(Run(START, ls[..n]), ls[n]);
      }
    } else {
      var n :| 0 <= n < |ls| && !CleanStep(Run(START, ls[..n]), ls[n]);
      assert !ReadsStatus(Run(START, ls[..n]), ls[n]) || !MergesAlike(Run(START, ls[..n]), ls[n]);
    }
  }

  ghost predicate Replays(st: Store) {
    RowIsReplay(st) && (st.task.Some? ==> LegalLog(st.log))
  }

  /** After a clean schedule the row is the replay of its log, and the log is legal. */
  lemma CleanReplays(ls: seq<Label>)
    requires EachStep(CleanStep, ls)
    ensures Inv(Run(START, ls)) && Replays(Run(START, ls).store)
  {
    hide Run, EachStep, CleanStep, ReadsStatus, MergesAlike, LegalStep, LegalLog, Replay;
    ReachesInv(ls);
    ReplayExactly(ls);
    AlwaysAtTheEnd(RowIsReplay, ls);
    CleanSplits(ls);
    StatusKeepsLegal(ls);
    LegalExactly(ls);
  }
}
