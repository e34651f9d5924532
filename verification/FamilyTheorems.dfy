// What artifact commits guarantee, each guarantee under its own exact condition
// (Replaying.StatusExactly, ArtifactsExactly, PartsExactly). A schedule in which sinks never
// overlap meets them all (SingleFamily.ExclusiveIsClean).
module FamilyTheorems {
  import opened Wrappers
  import opened Lifecycle
  import opened TaskLog
  import opened AtomicStore
  import opened Protocol
  import opened Footprints
  import opened Safety
  import opened Records
  import opened Runs
  import opened Replaying
  import opened SingleFamily
  import opened Theorems

  /** Replaying the log gives the stored status and artifacts, and its status events are a
      path of the state machine, although every artifact commit replaces the whole row. */
  lemma StoredTaskIsTheReplay(ls: seq<Label>)
    requires Exclusive(START, ls) && Run(START, ls).store.task.Some?
    ensures var st := Run(START, ls).store;
            && ViewOf(st.task.value) == Replay(st.log)
            && Statuses(st.log) != [] && Path(Statuses(st.log))
            && Statuses(st.log)[|Statuses(st.log)| - 1] == st.task.value.status.state
  {
    hide Run, Step;
    ExclusiveIsClean(ls);
    CleanReplays(ls);
    LegalIsAPath(Run(START, ls).store.log);
  }

  /** Emit e returned Ok for an artifact, which makes its event entry number OkAt of the log. */
  ghost predicate OkArtifact(w: World, e: Id) {
    && e in w.emits && w.emits[e].op.EmitArtifact?
    && w.emits[e].pc.Finished? && w.emits[e].pc.result.Emitted?
  }

  ghost function OkAt(w: World, e: Id): nat
    requires OkArtifact(w, e)
  {
    w.emits[e].pc.result.at
  }

  /** The event of emit e is in this log, and its parts are in the task, in one place. */
  ghost predicate Keeps(st: Store, w: World, e: Id)
    requires OkArtifact(w, e)
  {
    var op, n := w.emits[e].op, OkAt(w, e);
    && Logged(st, n, ArtifactUpdate(op.artifact, op.append, op.lastChunk), ByEmit(e))
    && st.task.Some? && Holds(st.task.value.artifacts, SlotOf(st.log, n - 1), op.artifact)
  }

  /** No lost update: while artifact commits merge alike, an artifact emit that returned Ok has
      its parts in the task for ever, in one place, whatever runs beside and after it. This is
      one way: merging alike is exact for artifacts that replay, and parts may happen to stay
      without it. */
  lemma NoLostUpdate(ls: seq<Label>, more: seq<Label>, e: Id)
    requires EachStep(MergesAlike, ls + more) && OkArtifact(Run(START, ls), e)
    ensures Keeps(Run(START, ls + more).store, Run(START, ls), e)
  {
    hide Run, Step, EachStep, MergesAlike, SlotOf, Holds, Replay, RecordsInv;
    var st, n := Run(START, ls + more).store, OkAt(Run(START, ls), e);
    OkEmitIsLogged(ls, more, e);
    ArtifactsExactly(ls + more);
    AlwaysAtTheEnd(ArtifactsReplay, ls + more);
    assert st.task.Some? by { LoggedMeansStored(ls + more); }
    PartsAreKept(st.log, n - 1, |st.log|);
    assert st.log[..|st.log|] == st.log;
  }

  lemma LoggedMeansStored(ls: seq<Label>)
    ensures Run(START, ls).store.log != [] ==> Run(START, ls).store.task.Some?
  {
    hide Run;
    ReachableInv(ls);
  }

  // Both events are logged, and if they went to one artifact, e's parts stand before x's.
  ghost predicate StandsBefore(w: World, e: Id, x: Id)
    requires OkArtifact(w, e) && OkArtifact(w, x)
  {
    var i, j := OkAt(w, e), OkAt(w, x);
    && Logged(w.store, i, EventOf(w.emits[e].op), ByEmit(e))
    && Logged(w.store, j, EventOf(w.emits[x].op), ByEmit(x))
    && var a, b := SlotOf(w.store.log, i - 1), SlotOf(w.store.log, j - 1);
       a.artifact == b.artifact ==> a.offset + |w.emits[e].op.artifact.parts| <= b.offset
  }

  /** Two such emits never share a place, and within one artifact their parts stand in
      commit order. */
  lemma EmitsKeepTheirOrder(ls: seq<Label>, e: Id, x: Id)
    requires OkArtifact(Run(START, ls), e) && OkArtifact(Run(START, ls), x)
    requires OkAt(Run(START, ls), e) < OkAt(Run(START, ls), x)
    ensures StandsBefore(Run(START, ls), e, x)
  {
    hide Run, Step;
    ReachableInv(ls);
    OrderWithin(Run(START, ls), e, x);
  }

  lemma OrderWithin(w: World, e: Id, x: Id)
    requires Inv(w) && OkArtifact(w, e) && OkArtifact(w, x) && OkAt(w, e) < OkAt(w, x)
    ensures StandsBefore(w, e, x)
  {
    assert EmitOk(w, e) && EmitOk(w, x);
    SlotsAreOrdered(w.store.log, OkAt(w, e) - 1, OkAt(w, x) - 1);
  }
}
