// The store contract every writer goes through: task and event are committed together,
// under a terminal compare-and-set (crates/turul-a2a/src/storage/atomic.rs).
module AtomicStore {
  import opened Wrappers
  import opened Lifecycle
  import opened TaskLog

  // One task's row, its event log, its cancel marker and its executor lease.
  // `send` is the send for whose turn the lease was written.
  datatype Lease = Lease(expires: int, send: Id)

  datatype Store = Store(
    task: Option<Task>,
    log: seq<Entry>,
    cancelRequested: bool,
    lease: Option<Lease>)

  datatype StoreError =
    | TaskNotFound
    | InvalidMove(current: TaskState, requested: TaskState)
    | TerminalStateAlreadySet(current: TaskState)
    | Backend

  // What a successful write returns: the sequence it was given and the task as stored.
  datatype Commit = Commit(at: nat, task: Task)

  datatype Write = Write(store: Store, commit: Commit)

  const EMPTY: Store := Store(None, [], false, None)

  predicate Terminal(st: Store) {
    st.task.Some? && IsTerminal(st.task.value.status.state)
  }

  function Put(st: Store, t: Task, e: Event, author: Author): Write {
    Write(st.(task := Some(t), log := st.log + [Entry(e, author)]), Commit(|st.log| + 1, t))
  }

  function CreateTaskWithEvents(st: Store, message: string, author: Author): Write {
    var submitted := Status(Submitted, None);
    Put(st.(lease := None, cancelRequested := false), Task(submitted, [], [message]), StatusUpdate(submitted), author)
  }

  function UpdateTaskStatusWithEvents(st: Store, status: Status, author: Author): Result<Write, StoreError> {
    if st.task.None? then Err(TaskNotFound)
    else
      var t := st.task.value;
      match ValidateTransition(t.status.state, status.state)
      case Allowed => Ok(Put(st, t.(status := status), StatusUpdate(status), author))
      case InvalidTransition(c, r) => Err(InvalidMove(c, r))
      case FromTerminal(s) => Err(TerminalStateAlreadySet(s))
  }

  /** Full replacement: `t` overwrites the row, unless the stored task is terminal. */
  function UpdateTaskWithEvents(st: Store, t: Task, e: Event, author: Author): Result<Write, StoreError> {
    if st.task.None? then Err(TaskNotFound)
    else if Terminal(st) then Err(TerminalStateAlreadySet(st.task.value.status.state))
    else Ok(Put(st, t, e, author))
  }

  /** No check for a terminal task, and no event. */
  function AppendMessage(st: Store, message: string): Result<Store, StoreError> {
    match st.task
    case None => Err(TaskNotFound)
    case Some(t) => Ok(st.(task := Some(t.(history := t.history + [message]))))
  }

  function SetCancelRequested(st: Store): Result<Store, StoreError> {
    if st.task.None? then Err(TaskNotFound)
    else if Terminal(st) then Err(TerminalStateAlreadySet(st.task.value.status.state))
    else Ok(st.(cancelRequested := true))
  }

  function WriteLease(st: Store, lease: Option<Lease>): Store {
    if st.task.None? then st else st.(lease := lease)
  }

  // ---- What every write keeps ----

  /** The log and the row agree about the terminal, and a terminal closes the log. */
  ghost predicate Consistent(st: Store) {
    && (st.task.None? ==> st.log == [])
    && (st.task.Some? ==> st.log != [])
    && (forall i :: 0 <= i < |st.log| - 1 ==> !TerminalEvent(st.log[i].event))
    && (st.log != [] ==>
          && (Terminal(st) <==> TerminalEvent(st.log[|st.log| - 1].event))
          && (Terminal(st) ==> st.log[|st.log| - 1].event == StatusUpdate(st.task.value.status)))
  }

  /** How a store may change: its log grows at the end, a cancel marker stays, and
      nothing the log speaks of changes once the task is terminal. */
  ghost predicate Grows(old_: Store, new_: Store) {
    && old_.log <= new_.log
    && (old_.task.Some? ==> new_.task.Some?)
    && (old_.task.Some? && old_.cancelRequested ==> new_.cancelRequested)
    && (Terminal(old_) ==> new_.log == old_.log && ViewOf(new_.task.value) == ViewOf(old_.task.value))
  }

  lemma StatusWriteKeeps(st: Store, status: Status, author: Author)
    requires Consistent(st)
    ensures var r := UpdateTaskStatusWithEvents(st, status, author);
            match r
            case Ok(w) =>
              && Consistent(w.store) && Grows(st, w.store) && !Terminal(st)
              && w.store.log == st.log + [Entry(StatusUpdate(status), author)]
              && w.commit.at == |w.store.log| && st.task.Some?
              && w.commit.task == Task(status, st.task.value.artifacts, st.task.value.history)
              && w.store == Store(Some(w.commit.task), w.store.log, st.cancelRequested, st.lease)
            case Err(e) => e.TerminalStateAlreadySet? <==> Terminal(st)
  {
  }

  /** From which states each state can be reached. */
  predicate LeadsTo(from: TaskState, to: TaskState) {
    match to
    case Submitted => false
    case Working => from in {Submitted, InputRequired, AuthRequired}
    case Completed => from in {Working, InputRequired}
    case InputRequired => from == Working
    case AuthRequired => from == Working
    case Failed => from in {Submitted, Working, InputRequired, AuthRequired}
    case Canceled => from in {Submitted, Working, InputRequired, AuthRequired}
    case Rejected => from in {Submitted, Working, InputRequired, AuthRequired}
  }

  /** From where the store accepts each status, and what it answers otherwise. */
  lemma StatusAcceptedExactly(st: Store, status: Status, author: Author)
    ensures UpdateTaskStatusWithEvents(st, status, author).Ok? <==>
              st.task.Some? && LeadsTo(st.task.value.status.state, status.state)
    ensures UpdateTaskStatusWithEvents(st, status, author).Err? ==>
              UpdateTaskStatusWithEvents(st, status, author).error ==
                match st.task
                case None => TaskNotFound
                case Some(t) =>
                  if t.status.state in {Completed, TaskState.Failed, Canceled, Rejected}
                  then TerminalStateAlreadySet(t.status.state)
                  else InvalidMove(t.status.state, status.state)
  {
  }

  lemma ReplaceKeeps(st: Store, t: Task, e: Event, author: Author)
    requires Consistent(st) && !TerminalEvent(e)
    requires IsTerminal(t.status.state) ==> Terminal(st)
    ensures var r := UpdateTaskWithEvents(st, t, e, author);
            match r
            case Ok(w) =>
              && Consistent(w.store) && Grows(st, w.store) && !Terminal(st)
              && w.store.log == st.log + [Entry(e, author)]
              && w.commit == Commit(|w.store.log|, t)
              && w.store == Store(Some(t), w.store.log, st.cancelRequested, st.lease)
            case Err(x) => x.TerminalStateAlreadySet? <==> Terminal(st)
  {
  }

  /** From every non-terminal state a framework terminal is accepted: FAILED and CANCELED
      writes can lose only to an earlier terminal or to a missing task. */
  lemma FrameworkTerminalFailsOnlyByRace(st: Store, status: Status, author: Author)
    requires status.state.Failed? || status.state.Canceled? || status.state.Rejected?
    ensures UpdateTaskStatusWithEvents(st, status, author).Ok? <==> st.task.Some? && !Terminal(st)
    ensures UpdateTaskStatusWithEvents(st, status, author).Err? ==>
              UpdateTaskStatusWithEvents(st, status, author).error ==
                if st.task.None? then TaskNotFound else TerminalStateAlreadySet(st.task.value.status.state)
  {
  }
}
