// `is_interrupted` against the log: the flag says whether the last status this sink has
// committed and published is one the client holds, whether or not that call got to return.
module SinkFlags {
  import opened Wrappers
  import opened Lifecycle
  import opened TaskLog
  import opened AtomicStore
  import opened Protocol
  import opened Footprints
  import opened Safety
  import opened Records

  /** The sequence a call has published: its flags are set, and it may still be waking
      subscribers, have returned, or have been dropped while it did. */
  function PublishedAt(pc: EmitPc): Option<nat> {
    match pc
    case Published(at) => Some(at)
    case Finished(Emitted(at)) => Some(at)
    case Finished(Unanswered(at)) => Some(at)
    case _ => None
  }

  /** Entry i is a status that an emit on sink f has published. */
  ghost predicate PublishedOn(w: World, f: Id, i: nat) {
    && i < |w.store.log| && w.store.log[i].event.StatusUpdate? && w.store.log[i].author.ByEmit?
    && var e := w.store.log[i].author.id;
       e in w.emits && w.emits[e].sink == f && PublishedAt(w.emits[e].pc) == Some(i + 1)
  }

  ghost function PublishedBy(w: World, f: Id): set<nat> {
    set i: nat | i < |w.store.log| && PublishedOn(w, f, i)
  }

  ghost predicate HeldByClient(e: Event) {
    e.StatusUpdate? && ClientHeld(e.status.state)
  }

  /** `flag` says whether the last of the entries in s hands the task to the client. */
  ghost predicate Mirrors(flag: bool, log: seq<Entry>, s: set<nat>) {
    flag <==> exists i: nat :: i < |log| && i in s && (forall j | j in s :: j <= i) && HeldByClient(log[i].event)
  }

  ghost predicate FlagOk(w: World, f: Id)
    requires f in w.sinks
  {
    Mirrors(w.sinks[f].isInterrupted, w.store.log, PublishedBy(w, f))
  }

  /** Between an emit's commit and its publication, its sink commits nothing else. */
  ghost predicate PendingOk(w: World, e: Id)
    requires e in w.emits
  {
    w.emits[e].pc.Committed? ==>
      forall j | w.emits[e].pc.commit.at <= j < |w.store.log| && w.store.log[j].author.ByEmit? ::
        var x := w.store.log[j].author.id; x in w.emits ==> w.emits[x].sink != w.emits[e].sink
  }

  ghost predicate FlagsInv(w: World) {
    && RecordsInv(w)
    && (forall f | f in w.sinks :: FlagOk(w, f))
    && (forall e | e in w.emits :: PendingOk(w, e))
  }

  // ---- Steps that publish nothing ----

  lemma MirrorsFrame(flag: bool, log: seq<Entry>, log': seq<Entry>, s: set<nat>)
    requires Mirrors(flag, log, s) && log <= log' && forall i | i in s :: i < |log|
    ensures Mirrors(flag, log', s)
  {
    forall i: nat | i < |log| ensures log'[i] == log[i] {
    }
  }

  lemma MirrorsNew(flag: bool, log: seq<Entry>, s: set<nat>, n: nat)
    requires n < |log| && (forall i | i in s :: i < n) && flag == HeldByClient(log[n].event)
    ensures Mirrors(flag, log, s + {n})
  {
  }

  lemma FlagsFrame(w: World, w': World)
    requires FlagsInv(w) && w.store.log <= w'.store.log
    requires forall f | f in w'.sinks ::
      && PublishedBy(w', f) == PublishedBy(w, f)
      && if f in w.sinks then w'.sinks[f].isInterrupted == w.sinks[f].isInterrupted
         else !w'.sinks[f].isInterrupted && PublishedBy(w, f) == {}
    ensures forall f | f in w'.sinks :: FlagOk(w', f)
  {
    forall f | f in w'.sinks ensures FlagOk(w', f) {
      assert f in w.sinks ==> FlagOk(w, f);
      MirrorsFrame(w'.sinks[f].isInterrupted, w.store.log, w'.store.log, PublishedBy(w, f));
    }
  }

  lemma SamePublished(w: World, w': World, f: Id)
    requires w.store.log <= w'.store.log && w'.emits == w.emits
    requires forall i :: |w.store.log| <= i < |w'.store.log| ==> !w'.store.log[i].author.ByEmit?
    ensures PublishedBy(w', f) == PublishedBy(w, f)
  {
    forall i: nat | i < |w.store.log| ensures PublishedOn(w', f, i) <==> PublishedOn(w, f, i) {
      assert w'.store.log[i] == w.store.log[i];
    }
    assert forall i: nat :: |w.store.log| <= i < |w'.store.log| ==> !PublishedOn(w', f, i);
  }

  lemma NobodyPublishesOnNewSinks(w: World, f: Id)
    requires Inv(w) && f !in w.sinks
    ensures PublishedBy(w, f) == {}
  {
    assert forall e | e in w.emits :: EmitOk(w, e);
  }

  lemma NotAnEmitStep(w: World, w': World)
    requires FlagsInv(w) && w'.emits == w.emits && w.store.log <= w'.store.log
    requires forall i :: |w.store.log| <= i < |w'.store.log| ==> !w'.store.log[i].author.ByEmit?
    requires forall f | f in w'.sinks ::
      if f in w.sinks then w'.sinks[f].isInterrupted == w.sinks[f].isInterrupted else !w'.sinks[f].isInterrupted
    ensures (forall f | f in w'.sinks :: FlagOk(w', f)) && (forall e | e in w'.emits :: PendingOk(w', e))
  {
    forall f | f in w'.sinks
      ensures PublishedBy(w', f) == PublishedBy(w, f) && (f !in w.sinks ==> PublishedBy(w, f) == {})
    {
      SamePublished(w, w', f);
      if f !in w.sinks {
        NobodyPublishesOnNewSinks(w, f);
      }
    }
    FlagsFrame(w, w');
    forall e | e in w'.emits ensures PendingOk(w', e) {
      assert PendingOk(w, e);
    }
  }

  // An emit other than a publication ends with nothing published.
  ghost predicate PublishesNothing(w: World, w': World, e: Id) {
    && Local(w, w', e)
    && LogGrowsBy(w.store.log, w'.store.log, ByEmit(e))
    && !w.emits[e].pc.Finished?
    && PublishedAt(w'.emits[e].pc) == PublishedAt(w.emits[e].pc)
    && (w'.emits[e].pc.Committed? ==> w'.emits[e].pc.commit.at == |w'.store.log|)
    && (w'.store.log != w.store.log ==> w.emits[e].pc.Holding? || w.emits[e].pc.HasRead?)
    && w'.sinks[w.emits[e].sink].isInterrupted == w.sinks[w.emits[e].sink].isInterrupted
  }

  lemma CommitPublishesNothing(w: World, e: Id)
    requires Inv(w) && e in w.emits && w.emits[e].sink in w.sinks
    requires if w.emits[e].op.EmitStatus? then w.emits[e].pc.Holding? else w.emits[e].pc.HasRead?
    ensures PublishesNothing(w, StepCommit(w, e), e)
  {
    hide SinkInv, WriterInv, DispatchInv, Consistent;
    CommitIsLocal(w, e);
    EmitWriteKeeps(w, e);
    match EmitWrite(w.store, w.emits[e], e)
    case Ok(r) => assert r.commit.at == |r.store.log|;
    case Err(_) =>
  }

  lemma FinishPublishesNothing(w: World, e: Id, r: EmitResult)
    requires e in w.emits && w.emits[e].sink in w.sinks && !w.emits[e].pc.Finished?
    requires PublishedAt(Finished(r)) == PublishedAt(w.emits[e].pc)
    ensures PublishesNothing(w, Finish(w, e, r), e)
  {
    FinishIsLocal(w, e, r);
    hide Local;
  }

  lemma LockPublishesNothing(w: World, e: Id)
    requires e in w.emits && w.emits[e].sink in w.sinks && w.emits[e].pc.Waiting?
    ensures PublishesNothing(w, StepLock(w, e), e)
  {
    LockIsLocal(w, e);
    hide Local;
  }

  lemma ReadPublishesNothing(w: World, e: Id)
    requires e in w.emits && w.emits[e].sink in w.sinks && w.emits[e].pc.Holding?
    ensures PublishesNothing(w, StepRead(w, e), e)
  {
    ReadIsLocal(w, e);
    hide Local;
  }

  lemma OthersPublishNothing(w: World, l: Label)
    requires IsEmitLabel(l) && !l.EmitCall? && !l.EmitPublish? && !l.EmitCommit? && StepEmit(w, l) != w
    ensures PublishesNothing(w, StepEmit(w, l), l.e)
  {
    hide PublishesNothing, Finish, StepLock, StepRead;
    match l
    case EmitLock(e) => LockPublishesNothing(w, e);
    case EmitRead(e) => ReadPublishesNothing(w, e);
    case EmitReturn(e) => FinishPublishesNothing(w, e, Emitted(w.emits[e].pc.at));
    case EmitFail(e) => FinishPublishesNothing(w, e, StoreRefused(Backend));
    case EmitDrop(e) =>
      FinishPublishesNothing(w, e, if w.emits[e].pc.Published? then Unanswered(w.emits[e].pc.at) else Dropped);
  }

  lemma OnlyOneInLock(w: World, e: Id, x: Id)
    requires EmitInv(w) && e in w.emits && x in w.emits && InLock(w.emits[e].pc) && InLock(w.emits[x].pc)
    requires w.emits[e].sink == w.emits[x].sink
    ensures e == x
  {
    assert EmitOk(w, x) && EmitOk(w, e);
  }

  lemma PublishingNothingKeepsPending(w: World, w': World, e: Id)
    requires FlagsInv(w) && e in w.emits && PublishesNothing(w, w', e)
    ensures forall x | x in w'.emits :: PendingOk(w', x)
  {
    hide PublishedBy, Mirrors, PublishedOn, FlagOk, AuthorsInv, OriginsInv, ReadersInv, SinkInv, WriterInv,
      DispatchInv, Consistent;
    forall x | x in w'.emits ensures PendingOk(w', x) {
      assert PendingOk(w, x);
      if x != e && w.emits[x].pc.Committed? && w'.store.log != w.store.log && w.emits[e].sink == w.emits[x].sink {
        OnlyOneInLock(w, e, x);
      }
      assert forall j | 0 <= j < |w.store.log| :: w'.store.log[..|w.store.log|][j] == w.store.log[j];
    }
  }

  lemma PublishingNothingKeepsPublished(w: World, w': World, e: Id, f: Id)
    requires e in w.emits && PublishesNothing(w, w', e)
    ensures PublishedBy(w', f) == PublishedBy(w, f)
  {
    forall i: nat | i < |w.store.log| ensures PublishedOn(w', f, i) <==> PublishedOn(w, f, i) {
      assert w'.store.log[..|w.store.log|][i] == w.store.log[i];
    }
    assert forall i: nat :: |w.store.log| <= i < |w'.store.log| ==> !PublishedOn(w', f, i);
  }

  lemma PublishingNothingKeepsFlags(w: World, w': World, e: Id)
    requires FlagsInv(w) && e in w.emits && PublishesNothing(w, w', e)
    ensures forall f | f in w'.sinks :: FlagOk(w', f)
  {
    forall f | f in w'.sinks ensures PublishedBy(w', f) == PublishedBy(w, f) {
      PublishingNothingKeepsPublished(w, w', e, f);
    }
    FlagsFrame(w, w');
  }

  // ---- Publication ----

  // A publication by e: its entry joins the published ones of its sink, if it is a status.
  ghost predicate Publishes(w: World, w': World, e: Id) {
    && Local(w, w', e) && w'.store == w.store && w.emits[e].pc.Committed?
    && w'.emits[e].pc == EmitPc.Published(w.emits[e].pc.commit.at)
    && w'.sinks[w.emits[e].sink].isInterrupted ==
         match w.emits[e].op
         case EmitStatus(status) => ClientHeld(status.state)
         case EmitArtifact(_, _, _) => w.sinks[w.emits[e].sink].isInterrupted
  }

  lemma PublishPublishes(w: World, e: Id)
    requires e in w.emits && w.emits[e].sink in w.sinks && w.emits[e].pc.Committed?
    ensures Publishes(w, StepPublish(w, e), e)
  {
    PublishIsLocal(w, e);
  }

  lemma PublishKeepsPending(w: World, w': World, e: Id)
    requires FlagsInv(w) && Publishes(w, w', e)
    ensures forall x | x in w'.emits :: PendingOk(w', x)
  {
    forall x | x in w'.emits ensures PendingOk(w', x) {
      assert PendingOk(w, x);
    }
  }

  lemma PublishAddsItsEntry(w: World, w': World, e: Id, f: Id)
    requires Inv(w) && Publishes(w, w', e)
    ensures PublishedBy(w', f) ==
              PublishedBy(w, f) +
                if f == w.emits[e].sink && w.emits[e].op.EmitStatus? then {w.emits[e].pc.commit.at - 1} else {}
  {
    assert EmitOk(w, e);
    forall i: nat | i < |w.store.log|
      ensures PublishedOn(w', f, i) <==>
        PublishedOn(w, f, i) || (f == w.emits[e].sink && w.emits[e].op.EmitStatus? && i == w.emits[e].pc.commit.at - 1)
    {
    }
  }

  lemma PublishedBeforePending(w: World, e: Id)
    requires FlagsInv(w) && e in w.emits && w.emits[e].pc.Committed?
    ensures forall i | i in PublishedBy(w, w.emits[e].sink) :: i < w.emits[e].pc.commit.at - 1
  {
    hide FlagOk, Mirrors, AuthorsInv, OriginsInv, ReadersInv, SinkInv, WriterInv, DispatchInv, Consistent;
    assert EmitOk(w, e) && PendingOk(w, e);
  }

  lemma FlagMoves(w: World, w': World, e: Id)
    requires FlagsInv(w) && Publishes(w, w', e) && w.emits[e].op.EmitStatus?
    ensures FlagOk(w', w.emits[e].sink)
  {
    hide FlagOk, Mirrors, PublishedBy, AuthorsInv, OriginsInv, ReadersInv, SinkInv, WriterInv, DispatchInv, Consistent;
    var f, c := w.emits[e].sink, w.emits[e].pc.commit;
    assert EmitOk(w, e);
    PublishAddsItsEntry(w, w', e, f);
    PublishedBeforePending(w, e);
    MirrorsNew(w'.sinks[f].isInterrupted, w.store.log, PublishedBy(w, f), c.at - 1);
    FlagIs(w', f);
  }

  lemma FlagIs(w: World, f: Id)
    requires f in w.sinks && Mirrors(w.sinks[f].isInterrupted, w.store.log, PublishedBy(w, f))
    ensures FlagOk(w, f)
  {
    hide Mirrors, PublishedBy;
  }

  lemma PublishMovesTheFlag(w: World, w': World, e: Id)
    requires FlagsInv(w) && Publishes(w, w', e)
    ensures forall f | f in w'.sinks :: FlagOk(w', f)
  {
    hide Mirrors, PublishedBy, AuthorsInv, OriginsInv, ReadersInv, SinkInv, WriterInv, DispatchInv, Consistent;
    if w.emits[e].op.EmitStatus? {
      FlagMoves(w, w', e);
    }
    forall g | g in w'.sinks && (g != w.emits[e].sink || !w.emits[e].op.EmitStatus?) ensures FlagOk(w', g) {
      assert FlagOk(w, g);
      PublishAddsItsEntry(w, w', e, g);
      assert PublishedBy(w, g) + {} == PublishedBy(w, g);
    }
  }

  // ---- Every step, every schedule ----

  lemma CallKeepsFlags(w: World, e: Id, f: Id, op: EmitOp)
    requires FlagsInv(w) && e !in w.emits && f in w.sinks
    ensures var w' := w.(emits := w.emits[e := Emit(f, op, Waiting)]);
            (forall g | g in w'.sinks :: FlagOk(w', g)) && (forall x | x in w'.emits :: PendingOk(w', x))
  {
    var w' := w.(emits := w.emits[e := Emit(f, op, Waiting)]);
    forall g | g in w'.sinks ensures PublishedBy(w', g) == PublishedBy(w, g) {
      assert forall i: nat | i < |w.store.log| :: PublishedOn(w', g, i) <==> PublishedOn(w, g, i);
    }
    FlagsFrame(w, w');
    forall x | x in w'.emits ensures PendingOk(w', x) {
      if x != e {
        assert PendingOk(w, x);
        assert forall j | 0 <= j < |w.store.log| :: AuthorOk(w, w.store.log[j].author);
      }
    }
  }

  // The part of FlagsInv that is about the flags.
  ghost predicate Flags(w: World) {
    (forall f | f in w.sinks :: FlagOk(w, f)) && (forall e | e in w.emits :: PendingOk(w, e))
  }

  lemma PublishStepKeepsFlags(w: World, e: Id)
    requires FlagsInv(w) && e in w.emits && w.emits[e].sink in w.sinks && w.emits[e].pc.Committed?
    ensures Flags(StepPublish(w, e))
  {
    PublishPublishes(w, e);
    PublishKeepsPending(w, StepPublish(w, e), e);
    PublishMovesTheFlag(w, StepPublish(w, e), e);
  }

  lemma OtherEmitStepKeepsFlags(w: World, l: Label)
    requires FlagsInv(w) && IsEmitLabel(l) && !l.EmitCall? && !l.EmitPublish? && StepEmit(w, l) != w
    ensures Flags(StepEmit(w, l))
  {
    if l.EmitCommit? {
      CommitPublishesNothing(w, l.e);
    } else {
      OthersPublishNothing(w, l);
    }
    PublishingNothingKeepsPending(w, StepEmit(w, l), l.e);
    PublishingNothingKeepsFlags(w, StepEmit(w, l), l.e);
  }

  lemma EmitStepKeepsFlags(w: World, l: Label)
    requires FlagsInv(w) && IsEmitLabel(l)
    ensures Flags(StepEmit(w, l))
  {
    if StepEmit(w, l) != w {
      if l.EmitCall? {
        CallKeepsFlags(w, l.e, l.f, l.op);
      } else if l.EmitPublish? {
        PublishStepKeepsFlags(w, l.e);
      } else {
        OtherEmitStepKeepsFlags(w, l);
      }
    }
  }

  lemma SendStepKeepsFlags(w: World, l: Label)
    requires FlagsInv(w) && IsSendLabel(l)
    ensures Flags(StepSend(w, l))
  {
    hide PublishedBy, Mirrors, FlagOk, PendingOk, AuthorsInv, OriginsInv, ReadersInv, SinkInv, EmitInv, WriterInv,
      DispatchInv, Consistent;
    SendTouchesNoEmit(w, l);
    SendTouchesSinks(w, l);
    SendWritesAsItself(w, l);
    NewSinksAreNotInterrupted(w, l);
    NotAnEmitStep(w, StepSend(w, l));
  }

  lemma OtherStepKeepsFlags(w: World, l: Label)
    requires FlagsInv(w) && !IsSendLabel(l) && !IsEmitLabel(l)
    ensures Flags(StepOther(w, l))
  {
    hide PublishedBy, Mirrors, FlagOk, PendingOk, AuthorsInv, OriginsInv, ReadersInv, SinkInv, EmitInv, WriterInv,
      DispatchInv, Consistent;
    OtherTouches(w, l);
    WritersStay(w, l);
    NotAnEmitStep(w, StepOther(w, l));
  }

  lemma StepKeepsFlags(w: World, l: Label)
    requires FlagsInv(w)
    ensures FlagsInv(Step(w, l))
  {
    StepKeepsRecords(w, l);
    if IsSendLabel(l) {
      SendStepKeepsFlags(w, l);
    } else if IsEmitLabel(l) {
      EmitStepKeepsFlags(w, l);
    } else {
      OtherStepKeepsFlags(w, l);
    }
  }

  lemma NewSinksAreNotInterrupted(w: World, l: Label)
    requires IsSendLabel(l)
    ensures var w' := StepSend(w, l);
            forall f | f in w'.sinks && f !in w.sinks :: !w'.sinks[f].isInterrupted
  {
  }

  lemma {:induction false} ReachableFlags(ls: seq<Label>)
    ensures FlagsInv(Run(START, ls))
  {
    if ls != [] {
      ReachableFlags(ls[..|ls| - 1]);
      StepKeepsFlags(Run(START, ls[..|ls| - 1]), ls[|ls| - 1]);
    }
  }

  /** In every schedule, a sink's `is_interrupted` tells whether the last status that this
      sink published is INPUT_REQUIRED or AUTH_REQUIRED. */
  lemma InterruptedFlagTracksTheLog(ls: seq<Label>, f: Id)
    requires f in Run(START, ls).sinks
    ensures var w := Run(START, ls);
            Mirrors(w.sinks[f].isInterrupted, w.store.log, PublishedBy(w, f))
  {
    hide Run, Step;
    ReachableFlags(ls);
    assert FlagOk(Run(START, ls), f);
  }
}
