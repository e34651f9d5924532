// What publishing a status does, in every schedule: which sinks have fired `yielded` and with
// what, which are closed, and which entries were handed to the push dispatcher.
module Publications {
  import opened Wrappers
  import opened Lifecycle
  import opened TaskLog
  import opened AtomicStore
  import opened Protocol
  import opened Footprints
  import opened Safety
  import opened Records
  import opened Commits
  import opened Theorems
  import opened SinkFlags

  /** A status that answers a waiting send: the task is over, or it waits for the client. */
  predicate Settles(e: Event) {
    e.StatusUpdate?
    && e.status.state in {Completed, TaskState.Failed, Canceled, Rejected, InputRequired, AuthRequired}
  }

  predicate Ends(e: Event) {
    e.StatusUpdate? && e.status.state in {Completed, TaskState.Failed, Canceled, Rejected}
  }

  /** What the sink has yielded is the first settling status it has published; nothing if it has
      published none. */
  ghost predicate YieldsFirst(log: seq<Entry>, s: set<nat>, yielded: Option<Commit>)
    requires forall i | i in s :: i < |log|
  {
    match yielded
    case None => forall i | i in s :: !Settles(log[i].event)
    case Some(c) =>
      && c.at > 0 && c.at - 1 in s && Settles(log[c.at - 1].event)
      && forall i | i in s && Settles(log[i].event) :: c.at - 1 <= i
  }

  // A call on this sink was told that it is closed.
  ghost predicate ToldClosed(w: World, f: Id) {
    exists e :: e in w.emits && w.emits[e].sink == f && w.emits[e].pc == Finished(SinkClosed)
  }

  ghost predicate PublishedEnd(w: World, f: Id) {
    exists i :: i in PublishedBy(w, f) && Ends(w.store.log[i].event)
  }

  ghost predicate YieldOk(w: World, f: Id)
    requires f in w.sinks
  {
    YieldsFirst(w.store.log, PublishedBy(w, f), w.sinks[f].yielded)
  }

  /** The sink is closed exactly if it has published a terminal, or met one at the store. */
  ghost predicate CloseOk(w: World, f: Id)
    requires f in w.sinks
  {
    w.sinks[f].isClosed <==> PublishedEnd(w, f) || ToldClosed(w, f)
  }

  // Some dispatch carries entry i.
  ghost predicate Dispatched(w: World, i: nat) {
    exists j :: 0 <= j < |w.dispatches| && w.dispatches[j].at == i + 1
  }

  // Entry i is a status whose call has got to its dispatch.
  ghost predicate ToBePushed(w: World, i: nat)
    requires i < |w.store.log|
  {
    match w.store.log[i].author
    case ByEmit(e) => e in w.emits && PublishedOn(w, w.emits[e].sink, i)
    case ByWriter(h) => h in w.writers && w.writers[h].pc.Answered?
    case BySend(_) => false
  }

  ghost predicate PushOk(w: World) {
    forall i: nat | i < |w.store.log| :: Dispatched(w, i) <==> ToBePushed(w, i)
  }

  ghost predicate SinksOk(w: World) {
    forall f | f in w.sinks :: YieldOk(w, f) && CloseOk(w, f)
  }

  // ---- Steps that publish nothing on a sink ----

  lemma YieldsFirstStays(log: seq<Entry>, log': seq<Entry>, s: set<nat>, yielded: Option<Commit>)
    requires (forall i | i in s :: i < |log|) && log <= log' && YieldsFirst(log, s, yielded)
    ensures YieldsFirst(log', s, yielded)
  {
    assert forall i | i in s :: log'[i] == log[i];
  }

  lemma PublishedEndStays(w: World, w': World, f: Id)
    requires w.store.log <= w'.store.log && PublishedBy(w', f) == PublishedBy(w, f)
    ensures PublishedEnd(w', f) == PublishedEnd(w, f)
  {
    hide PublishedOn, Ends;
    assert forall i | i in PublishedBy(w, f) :: w'.store.log[i] == w.store.log[i];
  }

  lemma PublishedInTheLog(w: World, f: Id)
    ensures forall i | i in PublishedBy(w, f) :: i < |w.store.log|
  {
  }

  lemma SinkFrame(w: World, w': World, f: Id)
    requires w.store.log <= w'.store.log && PublishedBy(w', f) == PublishedBy(w, f) && f in w'.sinks
    requires if f in w.sinks
             then YieldOk(w, f) && CloseOk(w, f) && w'.sinks[f].yielded == w.sinks[f].yielded
             else w'.sinks[f].yielded.None? && PublishedBy(w, f) == {}
    requires w'.sinks[f].isClosed <==> (f in w.sinks && w.sinks[f].isClosed) || ToldClosed(w', f)
    requires f in w.sinks && ToldClosed(w, f) ==> ToldClosed(w', f)
    ensures YieldOk(w', f) && CloseOk(w', f)
  {
    PublishedInTheLog(w, f);
    hide PublishedBy, ToldClosed, Ends, Settles;
    PublishedEndStays(w, w', f);
    if f in w.sinks {
      YieldsFirstStays(w.store.log, w'.store.log, PublishedBy(w, f), w.sinks[f].yielded);
    }
  }

  // A step of somebody other than an emit.
  lemma NotAnEmitKeepsSinks(w: World, w': World)
    requires FlagsInv(w) && SinksOk(w) && w'.emits == w.emits && w.store.log <= w'.store.log
    requires forall i :: |w.store.log| <= i < |w'.store.log| ==> !w'.store.log[i].author.ByEmit?
    requires forall f | f in w'.sinks ::
      if f in w.sinks then w'.sinks[f].yielded == w.sinks[f].yielded && w'.sinks[f].isClosed == w.sinks[f].isClosed
      else w'.sinks[f].yielded.None? && !w'.sinks[f].isClosed
    ensures SinksOk(w')
  {
    hide YieldOk, PublishedBy;
    forall f | f in w'.sinks ensures YieldOk(w', f) && CloseOk(w', f) {
      assert f in w.sinks ==> YieldOk(w, f) && CloseOk(w, f);
      SamePublished(w, w', f);
      assert ToldClosed(w', f) == ToldClosed(w, f);
      if f !in w.sinks {
        NobodyPublishesOnNewSinks(w, f);
        assert !ToldClosed(w, f) by { NobodyCallsNewSinks(w, f); }
      }
      SinkFrame(w, w', f);
    }
  }

  lemma NobodyCallsNewSinks(w: World, f: Id)
    requires Inv(w) && f !in w.sinks
    ensures !ToldClosed(w, f)
  {
    assert forall e | e in w.emits :: EmitOk(w, e);
  }

  // ---- An emit that publishes nothing ----

  // Only a call that ends because the sink is closed can close it.
  ghost predicate ClosesAsTold(w: World, w': World, e: Id)
    requires e in w.emits && w.emits[e].sink in w.sinks
  {
    && w'.sinks.Keys == w.sinks.Keys && e in w'.emits
    && (forall f | f in w.sinks && f != w.emits[e].sink :: w'.sinks[f].isClosed == w.sinks[f].isClosed)
    && (w'.sinks[w.emits[e].sink].isClosed <==>
          w.sinks[w.emits[e].sink].isClosed || w'.emits[e].pc == Finished(SinkClosed))
  }

  lemma FinishCloses(w: World, e: Id, r: EmitResult)
    requires e in w.emits && w.emits[e].sink in w.sinks
    ensures r.SinkClosed? ==> ClosesAsTold(w, Finish(Close(w, w.emits[e].sink), e, r), e)
    ensures (r.SinkClosed? ==> w.sinks[w.emits[e].sink].isClosed) ==> ClosesAsTold(w, Finish(w, e, r), e)
  {
  }

  lemma LockCloses(w: World, e: Id)
    requires e in w.emits && w.emits[e].sink in w.sinks
    ensures ClosesAsTold(w, StepLock(w, e), e)
  {
    FinishCloses(w, e, SinkClosed);
    hide Finish;
  }

  lemma ReadCloses(w: World, e: Id)
    requires e in w.emits && w.emits[e].sink in w.sinks
    ensures ClosesAsTold(w, StepRead(w, e), e)
  {
    FinishCloses(w, e, StoreRefused(TaskNotFound));
    hide Finish;
  }

  lemma CommitCloses(w: World, e: Id)
    requires e in w.emits && w.emits[e].sink in w.sinks
    requires w.emits[e].op.EmitArtifact? ==> w.emits[e].pc.HasRead?
    ensures ClosesAsTold(w, StepCommit(w, e), e)
  {
    match EmitWrite(w.store, w.emits[e], e)
    case Ok(_) =>
    case Err(err) =>
      hide Finish, Close, ClosesAsTold;
      FinishCloses(w, e, StoreRefused(err));
      FinishCloses(w, e, SinkClosed);
  }

  lemma OthersClose(w: World, l: Label)
    requires IsEmitLabel(l) && !l.EmitCall? && !l.EmitPublish? && StepEmit(w, l) != w
    ensures l.e in w.emits && w.emits[l.e].sink in w.sinks && ClosesAsTold(w, StepEmit(w, l), l.e)
  {
    hide ClosesAsTold, Finish, StepLock, StepRead, StepCommit;
    match l
    case EmitLock(e) => LockCloses(w, e);
    case EmitRead(e) => ReadCloses(w, e);
    case EmitCommit(e) => CommitCloses(w, e);
    case EmitReturn(e) => FinishCloses(w, e, Emitted(w.emits[e].pc.at));
    case EmitFail(e) => FinishCloses(w, e, StoreRefused(Backend));
    case EmitDrop(e) =>
      FinishCloses(w, e, if w.emits[e].pc.Published? then Unanswered(w.emits[e].pc.at) else Dropped);
  }

  lemma ToldByOne(w: World, w': World, e: Id, f: Id)
    requires e in w.emits && !w.emits[e].pc.Finished? && w.emits[e].sink in w.sinks && OnlyEmit(w, w', e)
    ensures ToldClosed(w', f) <==>
              ToldClosed(w, f) || (w.emits[e].sink == f && w'.emits[e].pc == Finished(SinkClosed))
  {
    if ToldClosed(w, f) {
      var x :| x in w.emits && w.emits[x].sink == f && w.emits[x].pc == Finished(SinkClosed);
      assert x in w'.emits && w'.emits[x] == w.emits[x];
    }
  }

  lemma PublishingNothingKeepsSinks(w: World, w': World, e: Id)
    requires FlagsInv(w) && SinksOk(w) && e in w.emits && PublishesNothing(w, w', e)
    requires SameYields(w, w') && ClosesAsTold(w, w', e)
    ensures SinksOk(w')
  {
    forall f | f in w'.sinks ensures YieldOk(w', f) && CloseOk(w', f) {
      PublishingNothingKeepsPublished(w, w', e, f);
      ToldByOne(w, w', e, f);
      assert YieldOk(w, f) && CloseOk(w, f);
      hide YieldOk, ToldClosed, PublishedBy, FlagsInv;
      assert w.store.log <= w'.store.log;
      SinkFrame(w, w', f);
    }
  }

  // ---- A publication ----

  // What a publication leaves: the sink's flags as the event says.
  ghost predicate Moves(w: World, w': World, e: Id)
    requires e in w.emits && w.emits[e].sink in w.sinks && w.emits[e].pc.Committed?
  {
    var f, c, event := w.emits[e].sink, w.emits[e].pc.commit, EventOf(w.emits[e].op);
    && w'.sinks.Keys == w.sinks.Keys
    && (forall g | g in w.sinks && g != f :: w'.sinks[g] == w.sinks[g])
    && w'.sinks[f].yielded == (if Settles(event) && w.sinks[f].yielded.None? then Some(c) else w.sinks[f].yielded)
    && (w'.sinks[f].isClosed <==> w.sinks[f].isClosed || Ends(event))
  }

  lemma PublishMoves(w: World, e: Id)
    requires e in w.emits && w.emits[e].sink in w.sinks && w.emits[e].pc.Committed?
    ensures Moves(w, StepPublish(w, e), e)
  {
  }

  lemma OneMorePublished(log: seq<Entry>, s: set<nat>, yielded: Option<Commit>, c: Commit)
    requires (forall i | i in s :: i < c.at - 1) && 0 < c.at <= |log| && YieldsFirst(log, s, yielded)
    ensures YieldsFirst(log, s + {c.at - 1},
                        if Settles(log[c.at - 1].event) && yielded.None? then Some(c) else yielded)
  {
  }

  // The published entries of e's own sink, before and after.
  lemma PublishedGrows(w: World, w': World, e: Id)
    requires FlagsInv(w) && e in w.emits && Publishes(w, w', e)
    ensures var f, c := w.emits[e].sink, w.emits[e].pc.commit;
            && 0 < c.at <= |w.store.log| && w.store.log[c.at - 1].event == EventOf(w.emits[e].op)
            && PublishedBy(w', f) == (if w.emits[e].op.EmitStatus? then PublishedBy(w, f) + {c.at - 1} else PublishedBy(w, f))
            && (forall i | i in PublishedBy(w, f) :: i < c.at - 1)
            && (ToldClosed(w', f) <==> ToldClosed(w, f))
  {
    var f, c := w.emits[e].sink, w.emits[e].pc.commit;
    assert Logged(w.store, c.at, EventOf(w.emits[e].op), ByEmit(e)) by { assert EmitOk(w, e); }
    PublishAddsItsEntry(w, w', e, f);
    PublishedBeforePending(w, e);
    ToldByOne(w, w', e, f);
  }

  lemma PublishedEndGrows(w: World, w': World, f: Id, n: nat)
    requires w'.store == w.store && n < |w.store.log| && PublishedBy(w', f) == PublishedBy(w, f) + {n}
    ensures PublishedEnd(w', f) <==> PublishedEnd(w, f) || Ends(w.store.log[n].event)
  {
    hide PublishedOn, Ends;
    if Ends(w.store.log[n].event) {
      assert n in PublishedBy(w', f);
    }
    if PublishedEnd(w, f) {
      var i :| i in PublishedBy(w, f) && Ends(w.store.log[i].event);
      assert i in PublishedBy(w', f);
    }
  }

  lemma PublishKeepsItsSink(w: World, w': World, e: Id)
    requires FlagsInv(w) && e in w.emits && w.emits[e].sink in w.sinks && w.emits[e].pc.Committed?
    requires Publishes(w, w', e) && Moves(w, w', e)
    requires YieldOk(w, w.emits[e].sink) && CloseOk(w, w.emits[e].sink)
    ensures YieldOk(w', w.emits[e].sink) && CloseOk(w', w.emits[e].sink)
  {
    hide PublishedBy, ToldClosed, FlagsInv, YieldsFirst, PublishedEnd;
    var f, c := w.emits[e].sink, w.emits[e].pc.commit;
    PublishedGrows(w, w', e);
    if w.emits[e].op.EmitStatus? {
      OneMorePublished(w.store.log, PublishedBy(w, f), w.sinks[f].yielded, c);
      PublishedEndGrows(w, w', f, c.at - 1);
    } else {
      PublishedEndStays(w, w', f);
    }
  }

  lemma PublishKeepsSinks(w: World, w': World, e: Id)
    requires FlagsInv(w) && SinksOk(w) && e in w.emits && w.emits[e].sink in w.sinks && w.emits[e].pc.Committed?
    requires Publishes(w, w', e) && Moves(w, w', e)
    ensures SinksOk(w')
  {
    hide FlagsInv, YieldOk, CloseOk, Publishes;
    forall f | f in w'.sinks ensures YieldOk(w', f) && CloseOk(w', f) {
      assert YieldOk(w, f) && CloseOk(w, f);
      if f == w.emits[e].sink {
        PublishKeepsItsSink(w, w', e);
      } else {
        PublishKeepsOtherSink(w, w', e, f);
      }
    }
  }

  lemma PublishKeepsOtherSink(w: World, w': World, e: Id, f: Id)
    requires FlagsInv(w) && e in w.emits && w.emits[e].sink in w.sinks && w.emits[e].pc.Committed?
    requires Publishes(w, w', e) && Moves(w, w', e)
    requires f in w.sinks && f != w.emits[e].sink && YieldOk(w, f) && CloseOk(w, f)
    ensures f in w'.sinks && YieldOk(w', f) && CloseOk(w', f)
  {
    hide YieldOk, ToldClosed, PublishedBy, Inv, RecordsInv;
    FlagsHaveInv(w);
    PublishAddsItsEntry(w, w', e, f);
    assert PublishedBy(w, f) + {} == PublishedBy(w, f);
    ToldByOne(w, w', e, f);
    SinkFrame(w, w', f);
  }

  lemma FlagsHaveInv(w: World)
    requires FlagsInv(w)
    ensures Inv(w) && RecordsInv(w)
  {
  }

  // ---- Every step ----

  lemma CallKeepsSinks(w: World, e: Id, f: Id, op: EmitOp)
    requires FlagsInv(w) && SinksOk(w) && e !in w.emits && f in w.sinks
    ensures SinksOk(w.(emits := w.emits[e := Emit(f, op, Waiting)]))
  {
    hide YieldOk, ToldClosed, PublishedBy, FlagsInv;
    var w' := w.(emits := w.emits[e := Emit(f, op, Waiting)]);
    forall g | g in w'.sinks ensures YieldOk(w', g) && CloseOk(w', g) {
      assert YieldOk(w, g) && CloseOk(w, g);
      CallKeepsPublished(w, e, f, op, g);
      ToldStays(w, e, f, op, g);
      SinkFrame(w, w', g);
    }
  }

  lemma CallKeepsPublished(w: World, e: Id, f: Id, op: EmitOp, g: Id)
    requires FlagsInv(w) && e !in w.emits
    ensures PublishedBy(w.(emits := w.emits[e := Emit(f, op, Waiting)]), g) == PublishedBy(w, g)
  {
    var w' := w.(emits := w.emits[e := Emit(f, op, Waiting)]);
    assert forall i: nat | i < |w.store.log| :: PublishedOn(w', g, i) <==> PublishedOn(w, g, i) by {
      assert forall i | 0 <= i < |w.store.log| :: AuthorOk(w, w.store.log[i].author);
    }
  }

  lemma ToldStays(w: World, e: Id, f: Id, op: EmitOp, g: Id)
    requires e !in w.emits
    ensures ToldClosed(w.(emits := w.emits[e := Emit(f, op, Waiting)]), g) == ToldClosed(w, g)
  {
    var w' := w.(emits := w.emits[e := Emit(f, op, Waiting)]);
    if ToldClosed(w, g) {
      var x :| x in w.emits && w.emits[x].sink == g && w.emits[x].pc == Finished(SinkClosed);
      assert w'.emits[x] == w.emits[x];
    }
  }

  lemma EmitPublishesNothing(w: World, l: Label)
    requires FlagsInv(w) && IsEmitLabel(l) && !l.EmitCall? && !l.EmitPublish? && StepEmit(w, l) != w
    ensures PublishesNothing(w, StepEmit(w, l), l.e)
  {
    hide FlagsInv, PublishesNothing;
    if l.EmitCommit? {
      FlagsHaveInv(w);
      hide StepCommit, Inv;
      CommitPublishesNothing(w, l.e);
    } else {
      OthersPublishNothing(w, l);
    }
  }

  lemma EmitKeepsSinks(w: World, l: Label)
    requires FlagsInv(w) && SinksOk(w) && IsEmitLabel(l)
    ensures SinksOk(StepEmit(w, l))
  {
    hide FlagsInv, SinksOk, PublishesNothing, SameYields, ClosesAsTold, StepCommit, StepPublish;
    if StepEmit(w, l) != w {
      if l.EmitCall? {
        CallKeepsSinks(w, l.e, l.f, l.op);
      } else if l.EmitPublish? {
        PublishPublishes(w, l.e);
        PublishMoves(w, l.e);
        PublishKeepsSinks(w, StepPublish(w, l.e), l.e);
      } else {
        EmitPublishesNothing(w, l);
        OnlyPublishYields(w, l);
        OthersClose(w, l);
        PublishingNothingKeepsSinks(w, StepEmit(w, l), l.e);
      }
    }
  }

  lemma SendKeepsSinks(w: World, l: Label)
    requires FlagsInv(w) && SinksOk(w) && IsSendLabel(l)
    ensures SinksOk(StepSend(w, l))
  {
    hide SinksOk, AuthorsInv, OriginsInv, ReadersInv, SinkInv, EmitInv, WriterInv, DispatchInv, FlagOk, PendingOk;
    SendTouchesNoEmit(w, l);
    SendTouchesSinks(w, l);
    SendWritesAsItself(w, l);
    hide StepSend;
    NotAnEmitKeepsSinks(w, StepSend(w, l));
  }

  lemma OtherKeepsSinks(w: World, l: Label)
    requires FlagsInv(w) && SinksOk(w) && !IsSendLabel(l) && !IsEmitLabel(l)
    ensures SinksOk(StepOther(w, l))
  {
    hide SinksOk, AuthorsInv, OriginsInv, ReadersInv, SinkInv, EmitInv, WriterInv, DispatchInv, FlagOk, PendingOk;
    OtherTouches(w, l);
    WritersStay(w, l);
    hide StepOther;
    NotAnEmitKeepsSinks(w, StepOther(w, l));
  }

  lemma StepKeepsSinks(w: World, l: Label)
    requires FlagsInv(w) && SinksOk(w)
    ensures SinksOk(Step(w, l))
  {
    hide SinksOk, FlagsInv;
    if IsSendLabel(l) {
      SendKeepsSinks(w, l);
    } else if IsEmitLabel(l) {
      EmitKeepsSinks(w, l);
    } else {
      OtherKeepsSinks(w, l);
    }
  }

  lemma {:induction false} ReachableSinks(ls: seq<Label>)
    ensures SinksOk(Run(START, ls))
  {
    if ls != [] {
      hide Step, FlagsInv, SinksOk;
      ReachableSinks(ls[..|ls| - 1]);
      ReachableFlags(ls[..|ls| - 1]);
      StepKeepsSinks(Run(START, ls[..|ls| - 1]), ls[|ls| - 1]);
    }
  }

  /** In every schedule a sink has fired `yielded` exactly if it has published a terminal, an
      INPUT_REQUIRED or an AUTH_REQUIRED, and it fired with the first of them. */
  lemma YieldedExactly(ls: seq<Label>, f: Id)
    requires f in Run(START, ls).sinks
    ensures var w := Run(START, ls);
            var settled := set i | i in PublishedBy(w, f) && Settles(w.store.log[i].event);
            match w.sinks[f].yielded
            case None => settled == {}
            case Some(c) => c.at > 0 && c.at - 1 in settled && forall i | i in settled :: c.at - 1 <= i
  {
    hide Run, PublishedOn, Settles;
    ReachableSinks(ls);
    assert YieldOk(Run(START, ls), f);
  }

  /** In every schedule a sink is closed exactly if it has published a terminal, or a call on it
      was refused because the sink or the task was closed. */
  lemma ClosedExactly(ls: seq<Label>, f: Id)
    requires f in Run(START, ls).sinks
    ensures var w := Run(START, ls);
            w.sinks[f].isClosed <==> PublishedEnd(w, f) || ToldClosed(w, f)
  {
    hide Run, PublishedEnd, ToldClosed;
    ReachableSinks(ls);
    assert CloseOk(Run(START, ls), f);
  }

  // ---- Pushes ----

  lemma PushFrame(w: World, w': World)
    requires DispatchInv(w) && PushOk(w) && w'.dispatches == w.dispatches && w.store.log <= w'.store.log
    requires forall i: nat | i < |w.store.log| :: ToBePushed(w', i) <==> ToBePushed(w, i)
    requires forall i: nat | |w.store.log| <= i < |w'.store.log| :: !ToBePushed(w', i)
    ensures PushOk(w')
  {
    hide ToBePushed;
    forall i: nat | i < |w'.store.log| ensures Dispatched(w', i) <==> ToBePushed(w', i) {
      assert Dispatched(w', i) <==> Dispatched(w, i);
      if i >= |w.store.log| {
        NotDispatchedYet(w, i);
      }
    }
  }

  lemma NotDispatchedYet(w: World, i: nat)
    requires DispatchInv(w) && i >= |w.store.log|
    ensures !Dispatched(w, i)
  {
    assert forall j | 0 <= j < |w.dispatches| :: DispatchOk(w, w.dispatches[j]);
  }

  // One more dispatch, of entry n, which is now to be pushed.
  lemma PushOne(w: World, w': World, d: Dispatch, n: nat)
    requires PushOk(w) && w'.dispatches == w.dispatches + [d] && w'.store == w.store
    requires n < |w.store.log| && d.at == n + 1 && ToBePushed(w', n)
    requires forall i: nat | i < |w.store.log| && i != n :: ToBePushed(w', i) <==> ToBePushed(w, i)
    ensures PushOk(w')
  {
    hide ToBePushed;
    assert w'.dispatches[|w.dispatches|].at == n + 1;
    forall i: nat | i < |w'.store.log| ensures Dispatched(w', i) <==> ToBePushed(w', i) {
      if Dispatched(w, i) {
        var j :| 0 <= j < |w.dispatches| && w.dispatches[j].at == i + 1;
        assert w'.dispatches[j].at == i + 1;
      }
      if Dispatched(w', i) && i != n {
        var j :| 0 <= j < |w'.dispatches| && w'.dispatches[j].at == i + 1;
        assert w.dispatches[j].at == i + 1;
      }
    }
  }

  // Every emit stays, and its sink has published what it had.
  ghost predicate SamePublications(w: World, w': World) {
    forall e | e in w.emits ::
      && e in w'.emits && w'.emits[e].sink == w.emits[e].sink
      && PublishedBy(w', w.emits[e].sink) == PublishedBy(w, w.emits[e].sink)
  }

  lemma SameToBePushed(w: World, w': World)
    requires RecordsInv(w) && w.store.log <= w'.store.log
    requires SamePublications(w, w')
    requires forall h | h in w.writers && (w.writers[h].pc.Won? || w.writers[h].pc.Answered?) ::
      h in w'.writers && (w'.writers[h].pc.Answered? <==> w.writers[h].pc.Answered?)
    ensures forall i: nat | i < |w.store.log| :: ToBePushed(w', i) <==> ToBePushed(w, i)
  {
    hide PublishedOn;
    forall i: nat | i < |w.store.log| ensures ToBePushed(w', i) <==> ToBePushed(w, i) {
      assert w'.store.log[i] == w.store.log[i];
      assert AuthorOk(w, w.store.log[i].author);
      if w.store.log[i].author.ByEmit? {
        var f := w.emits[w.store.log[i].author.id].sink;
        assert i in PublishedBy(w', f) <==> i in PublishedBy(w, f);
      }
    }
  }

  lemma SendKeepsPushes(w: World, l: Label)
    requires FlagsInv(w) && PushOk(w) && IsSendLabel(l)
    ensures PushOk(StepSend(w, l))
  {
    hide PushOk, FlagOk, PendingOk, OriginsInv, ReadersInv, SinkInv, EmitInv, WriterInv, DispatchInv, PublishedBy;
    var w' := StepSend(w, l);
    SendTouchesNoEmit(w, l);
    SendTouchesWriters(w, l);
    SendWritesAsItself(w, l);
    hide StepSend;
    forall e | e in w.emits ensures PublishedBy(w', w.emits[e].sink) == PublishedBy(w, w.emits[e].sink) {
      SamePublished(w, w', w.emits[e].sink);
    }
    SameToBePushed(w, w');
    PushFrame(w, w');
  }

  lemma EmitKeepsPushes(w: World, l: Label)
    requires FlagsInv(w) && PushOk(w) && IsEmitLabel(l) && !l.EmitPublish?
    ensures PushOk(StepEmit(w, l))
  {
    hide PushOk, FlagsInv, RecordsInv, Inv, StepEmit, PublishedBy, ToBePushed;
    FlagsHaveInv(w);
    var w' := StepEmit(w, l);
    if w' != w {
      if l.EmitCall? {
        CallPublishesNothing(w, l);
      } else {
        EmitPublishesNothing(w, l);
        EmitsDispatchNothing(w, l);
        NothingPublishedNothingPushed(w, w', l.e);
      }
    }
  }

  lemma NoNewPush(w: World, w': World)
    requires FlagsInv(w) && PushOk(w) && w'.dispatches == w.dispatches && w'.writers == w.writers
    requires w.store.log <= w'.store.log
    requires SamePublications(w, w')
    requires forall i: nat | |w.store.log| <= i < |w'.store.log| :: !ToBePushed(w', i)
    ensures PushOk(w')
  {
    hide PublishedBy, ToBePushed;
    SameToBePushed(w, w');
    PushFrame(w, w');
  }

  lemma CallPublishesNothing(w: World, l: Label)
    requires FlagsInv(w) && PushOk(w) && l.EmitCall? && StepEmit(w, l) != w
    ensures PushOk(StepEmit(w, l))
  {
    var w' := StepEmit(w, l);
    assert w' == w.(emits := w.emits[l.e := Emit(l.f, l.op, Waiting)]);
    hide StepEmit, FlagsInv, PushOk;
    forall e | e in w.emits ensures PublishedBy(w', w.emits[e].sink) == PublishedBy(w, w.emits[e].sink) {
      CallKeepsPublished(w, l.e, l.f, l.op, w.emits[e].sink);
    }
    hide PublishedBy;
    NoNewPush(w, w');
  }

  lemma EmitsDispatchNothing(w: World, l: Label)
    requires IsEmitLabel(l) && !l.EmitPublish?
    ensures StepEmit(w, l).dispatches == w.dispatches
  {
  }

  lemma PublishingNothingTouches(w: World, w': World, e: Id)
    requires PublishesNothing(w, w', e)
    ensures w'.writers == w.writers && w.store.log <= w'.store.log
    ensures forall x | x in w.emits :: x in w'.emits && w'.emits[x].sink == w.emits[x].sink
  {
  }

  lemma NothingPublishedNothingPushed(w: World, w': World, e: Id)
    requires FlagsInv(w) && PushOk(w) && PublishesNothing(w, w', e) && w'.dispatches == w.dispatches
    ensures PushOk(w')
  {
    hide FlagsInv, PushOk, PublishesNothing, PublishedBy, ToBePushed;
    PublishingNothingTouches(w, w', e);
    forall x | x in w.emits ensures PublishedBy(w', w.emits[x].sink) == PublishedBy(w, w.emits[x].sink) {
      EmitterIsThere(w, w', e);
      PublishingNothingKeepsPublished(w, w', e, w.emits[x].sink);
    }
    NewEntryIsPending(w, w', e);
    NoNewPush(w, w');
  }

  lemma EmitterIsThere(w: World, w': World, e: Id)
    requires PublishesNothing(w, w', e)
    ensures e in w.emits
  {
  }

  lemma NewEntryIsPending(w: World, w': World, e: Id)
    requires PublishesNothing(w, w', e)
    ensures forall i: nat | |w.store.log| <= i < |w'.store.log| :: !ToBePushed(w', i)
  {
    if w'.store.log != w.store.log {
      assert PublishedAt(w'.emits[e].pc).None?;
    }
  }

  lemma PublishKeepsPushes(w: World, e: Id)
    requires FlagsInv(w) && PushOk(w) && e in w.emits && w.emits[e].sink in w.sinks && w.emits[e].pc.Committed?
    ensures PushOk(StepPublish(w, e))
  {
    hide FlagsInv, PushOk, StepPublish, Publishes, ToBePushed;
    var w', c := StepPublish(w, e), w.emits[e].pc.commit;
    PublishPublishes(w, e);
    PublishTouches(w, w', e);
    PublishChangesOne(w, w', e);
    if w.emits[e].op.EmitStatus? {
      StatusDispatchesOne(w, e);
      PushOne(w, w', w'.dispatches[|w.dispatches|], c.at - 1);
    } else {
      ArtifactDispatchesNothing(w, e);
      assert DispatchInv(w) by { FlagsHaveInv(w); }
      PushFrame(w, w');
    }
  }

  lemma StatusDispatchesOne(w: World, e: Id)
    requires e in w.emits && w.emits[e].sink in w.sinks && w.emits[e].pc.Committed? && w.emits[e].op.EmitStatus?
    ensures var w' := StepPublish(w, e);
            && |w'.dispatches| == |w.dispatches| + 1
            && w'.dispatches == w.dispatches + [w'.dispatches[|w.dispatches|]]
            && w'.dispatches[|w.dispatches|].at == w.emits[e].pc.commit.at
  {
  }

  lemma ArtifactDispatchesNothing(w: World, e: Id)
    requires e in w.emits && w.emits[e].sink in w.sinks && w.emits[e].pc.Committed? && w.emits[e].op.EmitArtifact?
    ensures StepPublish(w, e).dispatches == w.dispatches
  {
  }

  lemma PublishTouches(w: World, w': World, e: Id)
    requires FlagsInv(w) && Publishes(w, w', e)
    ensures var c := w.emits[e].pc.commit;
            && 0 < c.at <= |w.store.log| && w.store.log[c.at - 1].author == ByEmit(e)
            && w'.store == w.store && w'.writers == w.writers
            && forall x | x in w.emits :: x in w'.emits && w'.emits[x].sink == w.emits[x].sink
  {
    assert EmitOk(w, e);
  }

  lemma PublishChangesOne(w: World, w': World, e: Id)
    requires FlagsInv(w) && Publishes(w, w', e)
    ensures var n := w.emits[e].pc.commit.at - 1;
            && 0 <= n < |w.store.log|
            && (w.emits[e].op.EmitStatus? ==> ToBePushed(w', n))
            && forall i: nat | i < |w.store.log| && (i != n || w.emits[e].op.EmitArtifact?) ::
                 ToBePushed(w', i) <==> ToBePushed(w, i)
  {
    PublishTouches(w, w', e);
    FlagsHaveInv(w);
    hide FlagsInv, Publishes, PublishedOn, RecordsInv, Inv;
    var n := w.emits[e].pc.commit.at - 1;
    forall i: nat | i < |w.store.log|
      ensures ToBePushed(w', i) <==> ToBePushed(w, i) || (w.emits[e].op.EmitStatus? && i == n)
    {
      match w.store.log[i].author
      case ByEmit(x) =>
        EmittersAreThere(w, i);
        PublishAddsItsEntry(w, w', e, w.emits[x].sink);
        assert PublishedOn(w', w.emits[x].sink, i) <==> i in PublishedBy(w', w.emits[x].sink);
        assert PublishedOn(w, w.emits[x].sink, i) <==> i in PublishedBy(w, w.emits[x].sink);
      case _ =>
    }
  }

  lemma EmittersAreThere(w: World, i: nat)
    requires RecordsInv(w) && i < |w.store.log| && w.store.log[i].author.ByEmit?
    ensures w.store.log[i].author.id in w.emits
  {
    assert AuthorOk(w, w.store.log[i].author);
  }

  lemma WriterKeepsPushes(w: World, l: Label)
    requires FlagsInv(w) && WritesOnce(w.store.log) && PushOk(w) && !IsSendLabel(l) && !IsEmitLabel(l)
    ensures PushOk(StepOther(w, l))
  {
    var w' := StepOther(w, l);
    OtherTouches(w, l);
    if l.WriterDispatch? {
      if w' != w {
        DispatchPushesOne(w, l.h);
      }
    } else {
      hide StepOther, PushOk, FlagsInv;
      OthersPushNothing(w, l);
    }
  }

  lemma OthersPushNothing(w: World, l: Label)
    requires FlagsInv(w) && PushOk(w) && !IsSendLabel(l) && !IsEmitLabel(l) && !l.WriterDispatch?
    ensures PushOk(StepOther(w, l))
  {
    hide StepOther, PushOk, FlagOk, PendingOk, OriginsInv, ReadersInv, SinkInv, EmitInv, PublishedBy;
    var w' := StepOther(w, l);
    OtherTouches(w, l);
    OthersAnswerNothing(w, l);
    WritersStay(w, l);
    forall e | e in w.emits ensures PublishedBy(w', w.emits[e].sink) == PublishedBy(w, w.emits[e].sink) {
      SamePublished(w, w', w.emits[e].sink);
    }
    SameToBePushed(w, w');
    PushFrame(w, w');
  }

  // No other step of a writer dispatches, or answers for one that has won.
  lemma OthersAnswerNothing(w: World, l: Label)
    requires !IsSendLabel(l) && !IsEmitLabel(l) && !l.WriterDispatch?
    ensures var w' := StepOther(w, l);
            && w'.dispatches == w.dispatches
            && (forall h | h in w.writers && (w.writers[h].pc.Won? || w.writers[h].pc.Answered?) ::
                  h in w'.writers && (w'.writers[h].pc.Answered? <==> w.writers[h].pc.Answered?))
            && (l.WriterCommit? && l.h in w'.writers && w'.store.log != w.store.log ==> !w'.writers[l.h].pc.Answered?)
  {
    hide SetCancelRequested, WriteLease, StepSnapshot, StepPoll, StepWriterCommit, StepWriterReread, StepWriterDispatch;
    match l
    case WriterCommit(h) => if h in w.writers { CommitAnswersNothing(w, h); }
    case WriterReread(h) => if h in w.writers { RereadAnswersNothing(w, h); }
    case _ =>
  }

  lemma CommitAnswersNothing(w: World, h: Id)
    requires h in w.writers
    ensures var w' := StepWriterCommit(w, h);
            && w'.dispatches == w.dispatches && w'.writers == w.writers[h := w'.writers[h]] && h in w'.writers
            && !w'.writers[h].pc.Answered?
  {
    hide UpdateTaskStatusWithEvents;
  }

  lemma RereadAnswersNothing(w: World, h: Id)
    requires h in w.writers
    ensures var w' := StepWriterReread(w, h);
            && w'.dispatches == w.dispatches && h in w'.writers && w'.writers == w.writers[h := w'.writers[h]]
            && w'.store == w.store
  {
  }

  lemma DispatchPushesOne(w: World, h: Id)
    requires FlagsInv(w) && WritesOnce(w.store.log) && PushOk(w) && h in w.writers && w.writers[h].pc.Won?
    ensures PushOk(StepWriterDispatch(w, h))
  {
    FlagsHaveInv(w);
    hide FlagsInv, PushOk;
    var w', c := StepWriterDispatch(w, h), w.writers[h].pc.commit;
    assert WriterOk(w, h);
    var d := w'.dispatches[|w.dispatches|];
    assert w'.dispatches == w.dispatches + [d] && d.at == c.at;
    assert w.store.log[c.at - 1].author == ByWriter(h);
    forall i: nat | i < |w.store.log| && i != c.at - 1 ensures ToBePushed(w', i) <==> ToBePushed(w, i) {
      assert AuthorOk(w, w.store.log[i].author);
      assert w.store.log[i].author != ByWriter(h);
    }
    PushOne(w, w', d, c.at - 1);
  }

  lemma StepKeepsPushes(w: World, l: Label)
    requires FlagsInv(w) && WritesOnce(w.store.log) && PushOk(w)
    ensures PushOk(Step(w, l))
  {
    hide PushOk, FlagsInv, StepPublish;
    if IsSendLabel(l) {
      SendKeepsPushes(w, l);
    } else if !IsEmitLabel(l) {
      WriterKeepsPushes(w, l);
    } else if l.EmitPublish? {
      if StepEmit(w, l) != w {
        PublishKeepsPushes(w, l.e);
      }
    } else {
      EmitKeepsPushes(w, l);
    }
  }

  lemma {:induction false} ReachablePushes(ls: seq<Label>)
    ensures PushOk(Run(START, ls))
  {
    if ls != [] {
      hide Step, FlagsInv, PushOk;
      ReachablePushes(ls[..|ls| - 1]);
      ReachableFlags(ls[..|ls| - 1]);
      CallsWriteOnce(ls[..|ls| - 1]);
      StepKeepsPushes(Run(START, ls[..|ls| - 1]), ls[|ls| - 1]);
    }
  }

  /** In every schedule: an entry is handed to the push dispatcher exactly if it is a status
      that an emit has published or a framework writer has won and answered with; once; an
      emit's without its message, the framework's as it was logged. */
  lemma DispatchedExactly(ls: seq<Label>, i: nat)
    requires i < |Run(START, ls).store.log|
    ensures var w := Run(START, ls); Dispatched(w, i) <==> ToBePushed(w, i)
    ensures var w := Run(START, ls);
            forall j, k | 0 <= j < |w.dispatches| && 0 <= k < |w.dispatches|
                          && w.dispatches[j].at == i + 1 && w.dispatches[k].at == i + 1 ::
              && j == k && w.store.log[i].event.StatusUpdate?
              && var status := w.store.log[i].event.status;
                 w.dispatches[j].event ==
                   StatusUpdate(if w.store.log[i].author.ByEmit? then Status(status.state, None) else status)
  {
    hide Run, ToBePushed, Dispatched;
    ReachablePushes(ls);
    ReachableInv(ls);
    var w := Run(START, ls);
    assert forall j | 0 <= j < |w.dispatches| :: DispatchOk(w, w.dispatches[j]);
  }
}
