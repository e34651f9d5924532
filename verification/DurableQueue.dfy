// The queue consumer: a batch of records, delivered at least once and in any order, each
// for a job that some send has enqueued.
module DurableQueue {
  import opened Wrappers
  import opened Lifecycle
  import opened TaskLog
  import opened AtomicStore
  import opened Protocol
  import opened Footprints
  import opened Safety
  import opened Records
  import opened Theorems
  import opened Handlers

  const VERSION: nat := 1

  const CANCELED_BEFORE: Status := Status(Canceled, Some("canceled before durable executor dispatch"))

  // `readable`: its message converts. A job for another task runs that task's protocol;
  // here it only fails or does not.
  datatype Body =
    | Undecodable
    | Job(version: nat, send: Id, readable: bool)
    | OtherTask(fails: bool)

  datatype Record = Record(id: Option<string>, body: Option<Body>)

  datatype Outcome =
    | ItemFailure(id: string)
    | AlreadyTerminal
    | CanceledBefore
    | LostToTerminal
    | Ran(markerUnread: bool)
    | Elsewhere

  function Identifier(r: Record): string {
    if r.id.Some? then r.id.value else "<no-message-id>"
  }

  predicate SawTerminal(o: Outcome) {
    o.AlreadyTerminal? || o.CanceledBefore? || o.LostToTerminal?
  }

  function FailedIds(outcomes: seq<Outcome>): seq<string> {
    if outcomes == [] then []
    else
      var last := outcomes[|outcomes| - 1];
      FailedIds(outcomes[..|outcomes| - 1]) + if last.ItemFailure? then [last.id] else []
  }

  // What the storage calls of one record answered: the task, the cancel marker (None if it
  // could not be read), and the CANCELED that a marker asks for. A record uses the ones it
  // gets to.
  datatype Answers = Answers(
    found: Result<Option<Task>, StoreError>,
    marker: Option<bool>,
    commit: Result<Task, StoreError>)

  predicate IsCurrentJob(r: Record) {
    r.body.Some? && r.body.value.Job? && r.body.value.version == VERSION
  }

  /** What becomes of a record, given what its storage calls answer. */
  function OutcomeOf(r: Record, a: Answers): Outcome {
    var failed := ItemFailure(Identifier(r));
    if !IsCurrentJob(r) then
      if r.body.Some? && r.body.value.OtherTask? && !r.body.value.fails then Elsewhere else failed
    else if a.found.Err? || a.found.value.None? then failed
    else if IsTerminal(a.found.value.value.status.state) then AlreadyTerminal
    else if a.marker == Some(true) then
      match a.commit
      case Ok(_) => CanceledBefore
      case Err(e) => if e.TerminalStateAlreadySet? then LostToTerminal else failed
    else if r.body.value.readable then Ran(a.marker.None?)
    else failed
  }

  function OutcomesOf(records: seq<Record>, answers: seq<Answers>): (outcomes: seq<Outcome>)
    requires |answers| == |records|
    ensures |outcomes| == |records|
  {
    seq(|records|, i requires 0 <= i < |records| => OutcomeOf(records[i], answers[i]))
  }

  // The body alone makes the record fail.
  predicate BadBody(r: Record) {
    match r.body
    case None => true
    case Some(Undecodable) => true
    case Some(OtherTask(fails)) => fails
    case Some(Job(version, _, _)) => version != VERSION
  }

  // Its task was read, and is open.
  predicate FoundOpen(a: Answers) {
    a.found.Ok? && a.found.value.Some? && !IsTerminal(a.found.value.value.status.state)
  }

  /** A record fails, under its own id, exactly if its body is bad; or its task could not be
      found or read; or the task is open, and its CANCELED failed otherwise than by losing to
      a terminal, or it is not to be canceled and its message does not convert. */
  lemma FailsExactly(r: Record, a: Answers)
    ensures OutcomeOf(r, a).ItemFailure? <==>
              (BadBody(r)
               || (IsCurrentJob(r) && (a.found.Err? || a.found.value.None?))
               || (IsCurrentJob(r) && FoundOpen(a)
                   && if a.marker == Some(true) then a.commit.Err? && !a.commit.error.TerminalStateAlreadySet?
                      else !r.body.value.readable))
    ensures OutcomeOf(r, a).ItemFailure? ==>
              OutcomeOf(r, a).id == match r.id case Some(id) => id case None => "<no-message-id>"
    ensures OutcomeOf(r, a).Elsewhere? <==> r.body == Some(OtherTask(false))
  {
  }

  /** A queue delivers only what was enqueued. */
  ghost predicate WasEnqueued(w: World, r: Record) {
    r.body.Some? && r.body.value.Job? ==> r.body.value.send in w.sends && w.sends[r.body.value.send].pc.Enqueued?
  }

  lemma StaysEnqueued(before: seq<Label>, after: seq<Label>, r: Record)
    requires before <= after && WasEnqueued(Run(START, before), r)
    ensures WasEnqueued(Run(START, after), r)
  {
    if r.body.Some? && r.body.value.Job? {
      var more := after[|before|..];
      assert after == before + more;
      RunConcat(START, before, more);
      RunKeepsSettled(Run(START, before), more, r.body.value.send);
    }
  }

  method NewId(ids: set<Id>) returns (n: Id)
    ensures n !in ids
  {
    n := 0;
    ghost var rest := ids;
    while n in ids
      invariant forall m | m in ids && n <= m :: m in rest
      decreases |rest|
    {
      rest := rest - {n};
      n := n + 1;
    }
  }

  lemma JobSpawnStarts(w: World, s: Id, f: Id)
    requires s in w.sends && w.sends[s].pc.Enqueued? && f !in w.sinks
    ensures var w' := Step(w, JobSpawn(s, f));
            f in w'.sinks && w'.sinks[f] == NewSink(s) && w'.store == w.store && w'.writers == w.writers
  {
  }

  // Runs the executor of an enqueued turn on a sink of its own, to its end.
  method RunQueuedJob(server: Server, me: Me, s: Id)
    requires server.Valid() && s in server.world.sends && server.world.sends[s].pc.Enqueued?
    requires me.sink !in server.world.sinks
    modifies server
    ensures server.Later() && me.sink in server.world.sinks && server.world.sinks[me.sink].origin == s
    ensures me.writer !in old(server.world.writers) ==> me.writer !in server.world.writers
  {
    JobSpawnStarts(server.world, s, me.sink);
    server.Take(JobSpawn(s, me.sink));
    server.Await(me);
  }

  // Which storage calls of a record fail, if it gets to them.
  datatype Faults = Faults(read: bool, marker: bool, commit: bool)

  // The cancel marker, if it can be read.
  method CancelMarker(server: Server, me: Me, fails: bool) returns (marker: Option<bool>)
    requires server.Valid()
    modifies server
    ensures server.Later() && Untouched(old(server.world), server.world, me)
    ensures marker == if fails then None else Some(server.world.store.cancelRequested)
  {
    server.Await(me);
    return if fails then None else Some(server.world.store.cancelRequested);
  }

  // The read was of this record's task, no earlier than store `before` and no later than w.
  ghost predicate ReadIsTrue(before: Store, w: World, found: Result<Option<Task>, StoreError>) {
    match found
    case Err(e) => e == Backend
    case Ok(None) => before.task.None?
    case Ok(Some(t)) =>
      w.store.task.Some? && if IsTerminal(t.status.state) then IsTheTerminal(w.store, t) else !Terminal(before)
  }

  ghost predicate MarkerIsTrue(before: Store, w: World, marker: Option<bool>) {
    match marker
    case None => true
    case Some(m) => if m then w.store.cancelRequested else !(before.task.Some? && before.cancelRequested)
  }

  ghost predicate CommitIsTrue(w: World, me: Me, commit: Result<Task, StoreError>) {
    match commit
    case Ok(t) => WonBy(w.store, CANCELED_BEFORE, me.writer, t)
    case Err(e) => NotBy(w.store, me.writer) && (e == Backend || (e.TerminalStateAlreadySet? && Terminal(w.store)))
  }

  // The record got to its task's marker.
  predicate ReachesMarker(r: Record, a: Answers) {
    IsCurrentJob(r) && FoundOpen(a)
  }

  // The record asked for its task's CANCELED.
  predicate Cancels(r: Record, a: Answers) {
    ReachesMarker(r, a) && a.marker == Some(true)
  }

  /** A call answers with a failure exactly if it is made and fails. */
  predicate FailsAsTold(r: Record, a: Answers, faults: Faults) {
    && (a.found.Err? <==> IsCurrentJob(r) && faults.read)
    && (a.marker.None? <==> ReachesMarker(r, a) && faults.marker)
    && (a.commit == Err(Backend) <==> Cancels(r, a) && faults.commit)
  }

  /** The answers that a record went by are the store's, between store `before` and world w,
      with a failure for the calls that failed and no others; and what it did is what they
      call for: the executor of the job's turn is there exactly if the outcome is Ran, and
      this writer's CANCELED exactly if it is CanceledBefore. */
  ghost predicate Driven(before: Store, w: World, me: Me, r: Record, faults: Faults, a: Answers) {
    && FailsAsTold(r, a, faults)
    && (IsCurrentJob(r) ==> ReadIsTrue(before, w, a.found))
    && (ReachesMarker(r, a) ==> MarkerIsTrue(before, w, a.marker))
    && (if Cancels(r, a) then CommitIsTrue(w, me, a.commit) else NotBy(w.store, me.writer))
    && (me.sink in w.sinks <==> OutcomeOf(r, a).Ran?)
    && (OutcomeOf(r, a).Ran? ==> w.sinks[me.sink].origin == r.body.value.send)
  }

  /** Never the executor on a task that was terminal, and on a marked one only if reading the
      marker fails; and once a record has seen the task terminal, it is. */
  lemma DrivenIsSafe(before: Store, w: World, me: Me, r: Record, faults: Faults, a: Answers)
    requires Driven(before, w, me, r, faults, a)
    ensures Terminal(before) ==> !OutcomeOf(r, a).Ran? && !OutcomeOf(r, a).CanceledBefore?
    ensures OutcomeOf(r, a).Ran? && before.task.Some? && before.cancelRequested ==> faults.marker
    ensures OutcomeOf(r, a).Ran? ==> (OutcomeOf(r, a).markerUnread <==> faults.marker)
    ensures SawTerminal(OutcomeOf(r, a)) ==> Terminal(w.store)
  {
  }

  method CancelBeforeDispatch(server: Server, me: Me, fails: bool) returns (r: Result<Task, StoreError>)
    requires server.Valid() && me.writer !in server.world.writers && server.world.store.task.Some?
    modifies server
    ensures server.Later() && CommitIsTrue(server.world, me, r) && (r == Err(Backend) <==> fails)
    ensures me.sink in server.world.sinks <==> me.sink in old(server.world.sinks)
  {
    r := server.CommitFrameworkTerminal(me, CANCELED_BEFORE, fails);
    if r.Err? {
      ReachableInv(server.schedule);
      NotWonNotLogged(server.world, me.writer);
    }
  }

  const NOT_ASKED: Answers := Answers(Ok(None), Some(false), Err(TaskNotFound))

  /** Drives one record, of whose storage calls these fail. */
  method DriveRecord(server: Server, me: Me, r: Record, faults: Faults) returns (outcome: Outcome, answers: Answers)
    requires server.Valid() && WasEnqueued(server.world, r)
    requires me.writer !in server.world.writers && me.sink !in server.world.sinks
    modifies server
    ensures server.Later() && outcome == OutcomeOf(r, answers)
    ensures Driven(old(server.world.store), server.world, me, r, faults, answers)
  {
    answers := NOT_ASKED;
    var identifier := Identifier(r);
    if r.body.None? || r.body.value.Undecodable? {
      server.NothingWritten(me);
      return ItemFailure(identifier), answers;
    }
    if r.body.value.OtherTask? {
      server.Await(me);
      server.NothingWritten(me);
      return if r.body.value.fails then ItemFailure(identifier) else Elsewhere, answers;
    }
    if r.body.value.version != VERSION {
      server.NothingWritten(me);
      return ItemFailure(identifier), answers;
    }
    outcome, answers := DriveJob(server, me, r, faults);
  }

  method DriveJob(server: Server, me: Me, r: Record, faults: Faults) returns (outcome: Outcome, answers: Answers)
    requires server.Valid() && WasEnqueued(server.world, r) && IsCurrentJob(r)
    requires me.writer !in server.world.writers && me.sink !in server.world.sinks
    modifies server
    ensures server.Later() && outcome == OutcomeOf(r, answers)
    ensures Driven(old(server.world.store), server.world, me, r, faults, answers)
  {
    hide Run, Step, NotBy, WonBy;
    ghost var start := server.schedule;
    var identifier := Identifier(r);
    var found := server.ReadTask(me, faults.read);
    answers := NOT_ASKED.(found := found);
    if found.Err? || found.value.None? {
      server.NothingWritten(me);
      return ItemFailure(identifier), answers;
    }
    if IsTerminal(found.value.value.status.state) {
      server.NothingWritten(me);
      return AlreadyTerminal, answers;
    }
    var marker := CancelMarker(server, me, faults.marker);
    answers := answers.(marker := marker);
    if marker == Some(true) {
      var commit := CancelBeforeDispatch(server, me, faults.commit);
      answers := answers.(commit := commit);
      match commit {
        case Ok(_) => return CanceledBefore, answers;
        case Err(e) =>
          return if e.TerminalStateAlreadySet? then LostToTerminal else ItemFailure(identifier), answers;
      }
    }
    if !r.body.value.readable {
      server.NothingWritten(me);
      return ItemFailure(identifier), answers;
    }
    StaysEnqueued(start, server.schedule, r);
    RunQueuedJob(server, me, r.body.value.send);
    server.NothingWritten(me);
    return Ran(marker.None?), answers;
  }

  method NewMe(server: Server) returns (me: Me)
    requires server.Valid()
    ensures me.writer !in server.world.writers && me.sink !in server.world.sinks
  {
    var h := NewId(server.world.writers.Keys);
    var s := NewId(server.world.sends.Keys);
    var f := NewId(server.world.sinks.Keys);
    return Me(h, s, f);
  }

  // Record i was driven from cut i of the schedule to cut i + 1.
  ghost predicate DrivenBetween(schedule: seq<Label>, cuts: seq<nat>, i: nat, me: Me, r: Record, faults: Faults,
                                a: Answers)
  {
    && i + 1 < |cuts| && cuts[i] <= cuts[i + 1] <= |schedule|
    && Driven(Run(START, schedule[..cuts[i]]).store, Run(START, schedule[..cuts[i + 1]]), me, r, faults, a)
  }

  ghost predicate BatchDriven(schedule: seq<Label>, cuts: seq<nat>, mes: seq<Me>, records: seq<Record>,
                              faults: seq<Faults>, answers: seq<Answers>)
  {
    && |answers| == |faults| == |mes| == |records| && |cuts| == |records| + 1
    && (forall i | 0 <= i < |cuts| :: cuts[i] <= |schedule|)
    && (forall i | 0 <= i < |records| :: DrivenBetween(schedule, cuts, i, mes[i], records[i], faults[i], answers[i]))
  }

  lemma DrivenStays(before: seq<Label>, after: seq<Label>, cuts: seq<nat>, more: seq<nat>, i: nat,
                    me: Me, r: Record, faults: Faults, a: Answers)
    requires before <= after && cuts <= more && DrivenBetween(before, cuts, i, me, r, faults, a)
    ensures DrivenBetween(after, more, i, me, r, faults, a)
  {
    hide Driven, Run;
    assert before[..cuts[i]] == after[..cuts[i]] && before[..cuts[i + 1]] == after[..cuts[i + 1]];
  }

  /** Each record, in its turn and in its own stretch of the schedule, is driven to the outcome
      that the storage answers call for; the failure list holds the ids of the failing ones,
      each once and in order. */
  method DriveBatch(server: Server, records: seq<Record>, faults: seq<Faults>)
    returns (failures: seq<string>, answers: seq<Answers>, ghost cuts: seq<nat>, ghost mes: seq<Me>)
    requires server.Valid() && |faults| == |records|
    requires forall i | 0 <= i < |records| :: WasEnqueued(server.world, records[i])
    modifies server
    ensures server.Later()
    ensures BatchDriven(server.schedule, cuts, mes, records, faults, answers)
    ensures cuts[0] == |old(server.schedule)| && cuts[|records|] == |server.schedule|
    ensures failures == FailedIds(OutcomesOf(records, answers))
  {
    hide Run, Driven, OutcomeOf, WasEnqueued, BatchDriven;
    ghost var start := server.schedule;
    failures, answers, mes, cuts := [], [], [], [|start|];
    NothingDriven(start, records[..0], faults[..0]);
    for i := 0 to |records|
      invariant |answers| == i && |cuts| == i + 1 && cuts[0] == |start| && cuts[i] == |server.schedule|
      invariant server.Later() && start <= server.schedule
      invariant failures == FailedIds(OutcomesOf(records[..i], answers))
      invariant BatchDriven(server.schedule, cuts, mes, records[..i], faults[..i], answers)
    {
      ghost var before := server.schedule;
      StaysEnqueued(start, before, records[i]);
      var me := NewMe(server);
      var outcome, answer := DriveRecord(server, me, records[i], faults[i]);
      if outcome.ItemFailure? {
        failures := failures + [outcome.id];
      }
      assert records[..i + 1] == records[..i] + [records[i]] && faults[..i + 1] == faults[..i] + [faults[i]];
      OneMoreOutcome(records[..i], answers, records[i], answer);
      OneMoreDriven(before, server.schedule, cuts, mes, records[..i], faults[..i], answers,
                    me, records[i], faults[i], answer);
      answers, mes, cuts := answers + [answer], mes + [me], cuts + [|server.schedule|];
    }
    assert records[..|records|] == records && faults[..|records|] == faults;
  }

  lemma NothingDriven(schedule: seq<Label>, records: seq<Record>, faults: seq<Faults>)
    requires records == [] && faults == []
    ensures BatchDriven(schedule, [|schedule|], [], records, faults, [])
  {
  }

  lemma OneMoreOutcome(records: seq<Record>, answers: seq<Answers>, r: Record, a: Answers)
    requires |answers| == |records|
    ensures FailedIds(OutcomesOf(records + [r], answers + [a])) ==
              FailedIds(OutcomesOf(records, answers)) + if OutcomeOf(r, a).ItemFailure? then [OutcomeOf(r, a).id] else []
  {
    hide OutcomeOf;
    var outcomes := OutcomesOf(records + [r], answers + [a]);
    assert outcomes[..|records|] == OutcomesOf(records, answers);
  }

  lemma NewlyDriven(before: seq<Label>, after: seq<Label>, cuts: seq<nat>, i: nat,
                    me: Me, r: Record, faults: Faults, a: Answers)
    requires before <= after && |cuts| == i + 2 && cuts[i] == |before| && cuts[i + 1] == |after|
    requires Driven(Run(START, before).store, Run(START, after), me, r, faults, a)
    ensures DrivenBetween(after, cuts, i, me, r, faults, a)
  {
    hide Run, Driven;
    assert after[..cuts[i]] == before && after[..cuts[i + 1]] == after;
  }

  lemma OneMoreDriven(before: seq<Label>, after: seq<Label>, cuts: seq<nat>, mes: seq<Me>, records: seq<Record>,
                      faults: seq<Faults>, answers: seq<Answers>, me: Me, r: Record, fault: Faults, a: Answers)
    requires before <= after && BatchDriven(before, cuts, mes, records, faults, answers) && cuts[|records|] == |before|
    requires Driven(Run(START, before).store, Run(START, after), me, r, fault, a)
    ensures BatchDriven(after, cuts + [|after|], mes + [me], records + [r], faults + [fault], answers + [a])
  {
    hide Run, Driven, DrivenBetween;
    var n, more := |records|, cuts + [|after|];
    NewlyDriven(before, after, more, n, me, r, fault, a);
    forall k | 0 <= k < n ensures DrivenBetween(after, more, k, mes[k], records[k], faults[k], answers[k]) {
      assert DrivenBetween(before, cuts, k, mes[k], records[k], faults[k], answers[k]);
      DrivenStays(before, after, cuts, more, k, mes[k], records[k], faults[k], answers[k]);
    }
  }

  /** Once a record of a batch has seen the task terminal, no later one of it invokes its
      executor or writes CANCELED; nor does any of a batch that starts on a terminal task. */
  lemma TerminalEndsTheBatch(schedule: seq<Label>, cuts: seq<nat>, mes: seq<Me>, records: seq<Record>,
                             faults: seq<Faults>, answers: seq<Answers>, j: nat)
    requires BatchDriven(schedule, cuts, mes, records, faults, answers) && j < |records|
    requires Terminal(Run(START, schedule[..cuts[0]]).store)
          || exists i :: 0 <= i < j && SawTerminal(OutcomeOf(records[i], answers[i]))
    ensures !OutcomeOf(records[j], answers[j]).Ran? && !OutcomeOf(records[j], answers[j]).CanceledBefore?
  {
    hide Run, Driven, OutcomeOf;
    assert DrivenBetween(schedule, cuts, j, mes[j], records[j], faults[j], answers[j]);
    if Terminal(Run(START, schedule[..cuts[0]]).store) {
      TerminalFrom(schedule, cuts, mes, records, faults, answers, 0, j);
    } else {
      var i :| 0 <= i < j && SawTerminal(OutcomeOf(records[i], answers[i]));
      assert DrivenBetween(schedule, cuts, i, mes[i], records[i], faults[i], answers[i]);
      DrivenIsSafe(Run(START, schedule[..cuts[i]]).store, Run(START, schedule[..cuts[i + 1]]),
                   mes[i], records[i], faults[i], answers[i]);
      TerminalFrom(schedule, cuts, mes, records, faults, answers, i + 1, j);
    }
    DrivenIsSafe(Run(START, schedule[..cuts[j]]).store, Run(START, schedule[..cuts[j + 1]]),
                 mes[j], records[j], faults[j], answers[j]);
  }

  lemma {:induction false} TerminalFrom(schedule: seq<Label>, cuts: seq<nat>, mes: seq<Me>, records: seq<Record>,
                                        faults: seq<Faults>, answers: seq<Answers>, i: nat, j: nat)
    requires BatchDriven(schedule, cuts, mes, records, faults, answers) && i <= j < |records|
    requires Terminal(Run(START, schedule[..cuts[i]]).store)
    ensures Terminal(Run(START, schedule[..cuts[j]]).store)
    decreases j - i
  {
    hide Run, Driven;
    if i < j {
      assert DrivenBetween(schedule, cuts, i, mes[i], records[i], faults[i], answers[i]);
      var before, after := schedule[..cuts[i]], schedule[..cuts[i + 1]];
      assert after == before + schedule[cuts[i]..cuts[i + 1]];
      LaterState(before, schedule[cuts[i]..cuts[i + 1]]);
      TerminalFrom(schedule, cuts, mes, records, faults, answers, i + 1, j);
    }
  }
}
