// The blocking send's wait for its executor, under a soft and a hard deadline.
module BlockingSend {
  import opened Wrappers
  import opened Lifecycle
  import opened TaskLog
  import opened AtomicStore
  import opened Protocol
  import opened Footprints
  import opened Safety
  import opened Records
  import opened Commits
  import opened Theorems
  import opened Handlers

  const TIMED_OUT: Status :=
    Status(TaskState.Failed, Some("task timed out: hard deadline exceeded without terminal emission"))

  // Which branch of a select came first.
  datatype Wake =
    | Yielded(task: Task)
    | SenderDropped
    | Deadline
    | TokenTripped
    | Tick

  datatype Path =
    | OnYield
    | OnPoll
    | Forced(won: bool)

  datatype SendError = ExecutorExited | Store(error: StoreError)

  /** Some writer committed this status, and it is a terminal or one the client holds. */
  ghost predicate Durable(st: Store, status: Status) {
    && (IsTerminal(status.state) || ClientHeld(status.state))
    && exists i :: 0 <= i < |st.log| && st.log[i].event == StatusUpdate(status)
  }

  /** This is what sink f has yielded: the row that one of its own commits stored. */
  ghost predicate YieldOf(schedule: seq<Label>, f: Id, t: Task) {
    var w := Run(START, schedule);
    && f in w.sinks && w.sinks[f].yielded.Some?
    && var c := w.sinks[f].yielded.value;
       c.task == t && WasStored(schedule, Wrote(c)) && c.at > 0 && CommittedOn(w, c.at - 1, f)
  }

  /** An answer to the request whose sink is f: a row as it was stored, whose status some
      writer committed; if it came over `yielded`, one that f's own commit stored, and else
      the task's one terminal. */
  ghost predicate IsAnswer(schedule: seq<Label>, f: Id, t: Task, path: Path) {
    && Durable(Run(START, schedule).store, t.status)
    && WasStored(schedule, Read(t))
    && if path.OnYield? then YieldOf(schedule, f, t) else IsTheTerminal(Run(START, schedule).store, t)
  }

  lemma YieldAnswers(schedule: seq<Label>, f: Id)
    requires f in Run(START, schedule).sinks && Run(START, schedule).sinks[f].yielded.Some?
    ensures IsAnswer(schedule, f, Run(START, schedule).sinks[f].yielded.value.task, OnYield)
  {
    hide Run, WasStored;
    var c := Run(START, schedule).sinks[f].yielded.value;
    assert schedule + [] == schedule;
    YieldedIsDurable(schedule, [], f);
    WrittenIsARow(schedule, c);
  }

  lemma TerminalAnswers(schedule: seq<Label>, f: Id, t: Task, path: Path)
    requires IsTheTerminal(Run(START, schedule).store, t) && WasStored(schedule, Read(t)) && !path.OnYield?
    ensures IsAnswer(schedule, f, t, path)
  {
    hide Run, WasStored;
    ReachableInv(schedule);
    var st := Run(START, schedule).store;
    assert st.log[|st.log| - 1].event == StatusUpdate(t.status);
  }

  /** The sender of `yielded` went before the wait began, without firing. */
  ghost predicate SenderGone(w: World, f: Id) {
    f in w.sinks && w.sinks[f].dropped
  }

  /** It is gone as the wait begins, the sink has not yielded, the deadline is still to come, and
      the token is not tripped. */
  ghost predicate WasGone(w: World, f: Id, now: int, deadline: int, token: Option<int>) {
    SenderGone(w, f) && w.sinks[f].yielded.None? && now < deadline && !Tripped(token, now)
  }

  // At moment n of the schedule sink f is there and has not yielded.
  ghost predicate QuietAt(schedule: seq<Label>, f: Id, n: nat) {
    n <= |schedule| && f in Run(START, schedule[..n]).sinks && Run(START, schedule[..n]).sinks[f].yielded.None?
  }

  lemma QuietNow(schedule: seq<Label>, f: Id)
    requires f in Run(START, schedule).sinks && Run(START, schedule).sinks[f].yielded.None?
    ensures QuietAt(schedule, f, |schedule|)
  {
    hide Run;
    assert schedule[..|schedule|] == schedule;
  }

  lemma QuietThen(before: seq<Label>, after: seq<Label>, f: Id, n: nat)
    requires before <= after && QuietAt(before, f, n)
    ensures QuietAt(after, f, n)
  {
    hide Run;
    assert after[..n] == before[..n];
  }

  // What the wait cannot tell beforehand: when its token is tripped, if someone trips it, by how
  // much a wake-up may be late, and which of its reads fail.
  datatype Surroundings = Surroundings(trips: Option<int>, lag: nat, readFails: nat -> bool)

  function Latest(a: int, b: int): int {
    if a < b then b else a
  }

  predicate Tripped(token: Option<int>, now: int) {
    token.Some? && token.value <= now
  }

  // The last moment before the end, or the end if there was no step.
  function LastBefore(start: nat, end: nat): nat {
    if start < end then end - 1 else end
  }

  // Others run until the sink yields, or it is time to wake up.
  method WaitForYield(server: Server, me: Me, until: int, lag: nat)
    requires server.Valid() && me.sink in server.world.sinks && server.world.sinks[me.sink].yielded.None?
    modifies server
    ensures server.Later() && Untouched(old(server.world), server.world, me)
    ensures server.world.sinks[me.sink].yielded.Some? || server.now >= until
    ensures server.now <= Latest(old(server.now), until) + lag
    ensures QuietAt(server.schedule, me.sink, LastBefore(|old(server.schedule)|, |server.schedule|))
  {
    hide Run, Step, Touches;
    var others: seq<Label> := *;
    if !ByOthers(others, me) {
      others := [];
    }
    QuietNow(server.schedule, me.sink);
    var i := 0;
    while i < |others| && server.world.sinks[me.sink].yielded.None?
      invariant 0 <= i <= |others| && server.Later() && Untouched(old(server.world), server.world, me)
      invariant server.now == old(server.now)
      invariant QuietAt(server.schedule, me.sink, LastBefore(|old(server.schedule)|, |server.schedule|))
    {
      QuietNow(server.schedule, me.sink);
      ghost var before, w := server.schedule, server.world;
      server.Take(others[i]);
      StepByAnother(w, others[i], me);
      QuietThen(before, server.schedule, me.sink, |before|);
      i := i + 1;
    }
    var time: int := *;
    var wake := if server.world.sinks[me.sink].yielded.Some? || until < server.now then server.now else until;
    server.Pass(if time < wake then wake else if time <= wake + lag then time else wake + lag);
  }

  /** One select: the receiver of `yielded`, a deadline, and where given a timer and the
      cancellation token, tripped at that time. Of what is ready at once any may come first; but a receiver that is ready
      before the deadline and the timer loses at most to the token, while nothing is ready the
      select waits, and it wakes at most `lag` late. */
  method Select(server: Server, me: Me, deadline: int, token: Option<int>, timer: Option<nat>, lag: nat)
    returns (wake: Wake)
    requires server.Valid() && me.sink in server.world.sinks && timer != Some(0)
    modifies server
    ensures server.Later() && Untouched(old(server.world), server.world, me)
    ensures match wake
            case Yielded(t) =>
              && IsAnswer(server.schedule, me.sink, t, OnYield)
              && server.world.sinks[me.sink].yielded.Some? && server.world.sinks[me.sink].yielded.value.task == t
            case SenderDropped =>
              SenderGone(old(server.world), me.sink) && QuietAt(server.schedule, me.sink, |server.schedule|)
            case Deadline =>
              && server.now >= deadline && (timer.Some? ==> old(server.now) + timer.value + lag >= deadline)
              && (token.Some? ==> Latest(old(server.now), token.value) + lag >= deadline)
            case TokenTripped => Tripped(token, server.now)
            case Tick => timer.Some? && old(server.now) < deadline && server.now >= old(server.now) + timer.value
    ensures server.now <= Latest(old(server.now), deadline) + lag
    ensures token.Some? ==> server.now <= Latest(old(server.now), token.value) + lag
    ensures old(server.world.sinks[me.sink].yielded).Some? ==>
              && server.schedule == old(server.schedule) && server.now == old(server.now)
              && !wake.SenderDropped? && (old(server.now) < deadline ==> wake.Yielded? || wake.TokenTripped?)
    ensures WasGone(old(server.world), me.sink, old(server.now), deadline, token) ==> wake.SenderDropped?
    ensures old(server.world.sinks[me.sink].yielded).None? && !wake.Yielded? ==>
              QuietAt(server.schedule, me.sink, LastBefore(|old(server.schedule)|, |server.schedule|))
  {
    hide Run, WasStored, IsAnswer, QuietAt;
    var due := match timer
               case None => deadline
               case Some(pause) => if server.now + pause < deadline then server.now + pause else deadline;
    var until := if token.Some? && token.value < due then token.value else due;
    var receiver: bool, other: bool := *, *;
    if server.world.sinks[me.sink].yielded.None? {
      QuietNow(server.schedule, me.sink);
      if server.world.sinks[me.sink].dropped && (server.now < until || receiver) {
        return SenderDropped;
      }
      if server.now < deadline {
        WaitForYield(server, me, until, lag);
      }
    }
    if server.world.sinks[me.sink].yielded.Some? && (server.now < until || receiver) {
      YieldAnswers(server.schedule, me.sink);
      return Yielded(server.world.sinks[me.sink].yielded.value.task);
    }
    if Tripped(token, server.now) && (server.now < due || other) {
      return TokenTripped;
    }
    if server.now >= deadline && (timer.None? || other || due == deadline) {
      return Deadline;
    }
    return Tick;
  }

  /** One read: the task, if it is terminal. */
  method PollOnce(server: Server, me: Me, fails: bool) returns (r: Option<Task>)
    requires server.Valid()
    modifies server
    ensures server.Later() && Untouched(old(server.world), server.world, me)
    ensures r == if !fails && Terminal(server.world.store) then server.world.store.task else None
    ensures r.Some? ==> IsAnswer(server.schedule, me.sink, r.value, OnPoll)
    ensures r.None? ==> fails || !Terminal(old(server.world.store))
  {
    hide Run, IsAnswer, WasStored;
    var got := server.ReadTask(me, fails);
    if got.Err? || got.value.None? || !IsTerminal(got.value.value.status.state) {
      return None;
    }
    TheRowWasStored(server.schedule, got.value.value);
    TerminalAnswers(server.schedule, me.sink, got.value.value, OnPoll);
    return got.value;
  }

  /** After the token is tripped by someone else: read the task at every poll until it is
      terminal, the executor yields, or the hard deadline comes. A task that is terminal from
      the outset is found so by the first read, if there is time for it and it does not fail.
      `looked` is the last moment it looked at its receiver. */
  method PollUntilTerminal(server: Server, me: Me, hard: int, poll: nat, around: Surroundings)
    returns (r: Option<Result<Task, SendError>>, path: Path, ghost looked: nat)
    requires server.Valid() && me.sink in server.world.sinks && 0 < poll
    modifies server
    ensures server.Later() && Untouched(old(server.world), server.world, me)
    ensures match r
            case None => server.now >= hard
            case Some(Ok(t)) => IsAnswer(server.schedule, me.sink, t, path)
            case Some(Err(e)) => e == ExecutorExited && SenderGone(old(server.world), me.sink)
    ensures !path.Forced?
    ensures WasReady(old(server.world), me.sink, old(server.now), hard) ==>
              AnswersAtOnce(old(server.world), me.sink, r, path)
    ensures Terminal(old(server.world.store)) && !around.readFails(0) && old(server.now) + poll + around.lag < hard ==>
              r.Some?
    ensures r.None? && old(server.world.sinks[me.sink].yielded).None? ==>
              |old(server.schedule)| <= looked && QuietAt(server.schedule, me.sink, looked)
  {
    hide Run, IsAnswer, WasStored, QuietAt, Untouched, SenderGone;
    path, looked := OnYield, |server.schedule|;
    var asked := 0;
    assert Untouched(server.world, server.world, me) by { NothingTouched(server.world, me); }
    if server.world.sinks[me.sink].yielded.None? {
      QuietNow(server.schedule, me.sink);
    }
    while true
      invariant server.Later() && Untouched(old(server.world), server.world, me) && |old(server.schedule)| <= looked
      invariant me.sink in server.world.sinks
      invariant SenderGone(server.world, me.sink) ==> SenderGone(old(server.world), me.sink)
      invariant old(server.world.sinks[me.sink].yielded).None? ==> QuietAt(server.schedule, me.sink, looked)
      invariant old(server.world.sinks[me.sink].yielded).Some? && old(server.now) < hard ==>
                  && server.schedule == old(server.schedule) && server.now == old(server.now)
                  && server.world == old(server.world)
      invariant if asked == 0 then server.now == old(server.now)
                else around.readFails(0) || !Terminal(old(server.world.store))
      decreases hard - server.now
    {
      ghost var before, w, quiet := server.schedule, server.world, server.world.sinks[me.sink].yielded.None?;
      var wake := Select(server, me, hard, None, Some(poll), around.lag);
      UntouchedTwice(old(server.world), w, server.world, me);
      if quiet && !wake.Yielded? {
        looked := LastBefore(|before|, |server.schedule|);
      } else if old(server.world.sinks[me.sink].yielded).None? {
        QuietThen(before, server.schedule, me.sink, looked);
      }
      match wake {
        case Yielded(t) => return Some(Ok(t)), OnYield, looked;
        case SenderDropped => return Some(Err(ExecutorExited)), OnYield, looked;
        case Deadline => return None, OnYield, looked;
        case Tick =>
          ghost var ticked, w' := server.schedule, server.world;
          var got := PollOnce(server, me, around.readFails(asked));
          UntouchedTwice(old(server.world), w', server.world, me);
          asked := asked + 1;
          if old(server.world.sinks[me.sink].yielded).None? {
            QuietThen(ticked, server.schedule, me.sink, looked);
          }
          if got.Some? {
            return Some(Ok(got.value)), OnPoll, looked;
          }
      }
    }
  }

  lemma NothingTouched(w: World, me: Me)
    ensures Untouched(w, w, me)
  {
  }

  lemma UntouchedTwice(w: World, w': World, w'': World, me: Me)
    requires Untouched(w, w', me) && Untouched(w', w'', me)
    ensures Untouched(w, w'', me)
    ensures me.sink in w.sinks ==> me.sink in w''.sinks && (SenderGone(w'', me.sink) ==> SenderGone(w, me.sink))
  {
  }

  /** The sink had yielded before the wait began, and the hard deadline is still to come. */
  ghost predicate WasReady(w: World, f: Id, now: int, hard: int) {
    f in w.sinks && w.sinks[f].yielded.Some? && now < hard
  }

  /** The answer is what the sink had yielded. */
  ghost predicate AnswersAtOnce(w: World, f: Id, r: Option<Result<Task, SendError>>, path: Path)
    requires f in w.sinks && w.sinks[f].yielded.Some?
  {
    r == Some(Ok(w.sinks[f].yielded.value.task)) && path.OnYield?
  }

  /** The executor has overrun: force FAILED, or return the terminal that came first. It fails
      exactly if a call of that write fails. */
  method ForceTimeout(server: Server, me: Me, faults: WriteFaults) returns (r: Result<Task, SendError>, won: bool)
    requires server.Valid() && me.writer !in server.world.writers && server.world.store.task.Some?
    modifies server
    ensures server.Later() && me.writer in server.world.writers
    ensures server.BeginsWrite(me, TIMED_OUT)
    ensures match r
            case Ok(t) => IsAnswer(server.schedule, me.sink, t, Forced(won))
            case Err(e) => e == SendError.Store(Backend) && server.world.writers[me.writer].pc == GaveUp(Backend)
    ensures r.Err? <==> WriteFails(server.schedule, me.writer, faults)
    ensures if won then r.Ok? && WonBy(server.world.store, TIMED_OUT, me.writer, r.value)
            else NotBy(server.world.store, me.writer)
  {
    var answer: Result<Task, StoreError>;
    hide WriteFails;
    answer, won := server.ForceTerminal(me, TIMED_OUT, faults);
    match answer
    case Ok(t) =>
      HeldWasStored(server.schedule, AtWriter(me.writer));
      TerminalAnswers(server.schedule, me.sink, t, Forced(won));
      return Ok(t), won;
    case Err(e) => return Err(SendError.Store(e)), won;
  }

  /** Someone trips the token early enough for a poll before both deadlines, the first of which
      does not fail. */
  predicate PollsInTime(around: Surroundings, now: int, soft: int, hard: int, poll: nat) {
    && around.trips.Some? && !around.readFails(0)
    && var tripped := Latest(now, around.trips.value);
       tripped + around.lag < soft && tripped + 2 * around.lag + poll < hard
  }

  // The wait up to the soft deadline, and the polls if the token trips; None if they passed
  // without an answer.
  method AwaitSoftly(server: Server, me: Me, soft: int, hard: int, poll: nat, around: Surroundings)
    returns (r: Option<Result<Task, SendError>>, path: Path, ghost looked: nat)
    requires server.Valid() && me.sink in server.world.sinks && server.now <= soft <= hard && 0 < poll
    modifies server
    ensures server.Later() && Untouched(old(server.world), server.world, me)
    ensures match r
            case None => server.now >= soft && (around.trips.None? ==> server.now <= soft + around.lag)
            case Some(Ok(t)) => IsAnswer(server.schedule, me.sink, t, path)
            case Some(Err(e)) => e == ExecutorExited && SenderGone(old(server.world), me.sink)
    ensures !path.Forced?
    ensures WasReady(old(server.world), me.sink, old(server.now), hard) ==>
              AnswersAtOnce(old(server.world), me.sink, r, path)
              || (r.None? && server.now == old(server.now) && server.world == old(server.world))
    ensures Terminal(old(server.world.store)) && PollsInTime(around, old(server.now), soft, hard, poll) ==> r.Some?
    ensures WasGone(old(server.world), me.sink, old(server.now), soft, around.trips) ==> r == Some(Err(ExecutorExited))
    ensures r.None? && old(server.world.sinks[me.sink].yielded).None? ==>
              && |old(server.schedule)| <= looked && QuietAt(server.schedule, me.sink, looked)
              && (around.trips.None? ==> |server.schedule| <= looked + 1)
  {
    hide Run, IsAnswer, WasStored, QuietAt;
    ghost var start := server.schedule;
    path := OnYield;
    var wake := Select(server, me, soft, around.trips, None, around.lag);
    looked := LastBefore(|start|, |server.schedule|);
    match wake {
      case Yielded(t) => return Some(Ok(t)), OnYield, looked;
      case SenderDropped => return Some(Err(ExecutorExited)), OnYield, looked;
      case TokenTripped =>
        ghost var mid, quiet, first := server.schedule, server.world.sinks[me.sink].yielded.None?, looked;
        r, path, looked := PollUntilTerminal(server, me, hard, poll, around);
        if r.None? && !quiet {
          looked := first;
          if old(server.world.sinks[me.sink].yielded).None? {
            QuietThen(mid, server.schedule, me.sink, looked);
          }
        }
      case Deadline => return None, OnYield, looked;
    }
  }

  // All waits before the hard deadline: None if they passed without an answer.
  method AwaitExecutor(server: Server, me: Me, soft: int, hard: int, poll: nat, around: Surroundings)
    returns (r: Option<Result<Task, SendError>>, path: Path, ghost looked: nat)
    requires server.Valid() && me.sink in server.world.sinks && server.now <= soft <= hard && 0 < poll
    modifies server
    ensures server.Later() && Untouched(old(server.world), server.world, me)
    ensures match r
            case None =>
              && server.now >= (if SenderGone(old(server.world), me.sink) then soft else hard)
              && (around.trips.None? ==> server.now <= hard + 2 * around.lag)
            case Some(Ok(t)) => IsAnswer(server.schedule, me.sink, t, path)
            case Some(Err(e)) => e == ExecutorExited && SenderGone(old(server.world), me.sink)
    ensures !path.Forced?
    ensures WasReady(old(server.world), me.sink, old(server.now), hard) ==>
              AnswersAtOnce(old(server.world), me.sink, r, path)
    ensures Terminal(old(server.world.store)) && PollsInTime(around, old(server.now), soft, hard, poll) ==> r.Some?
    ensures WasGone(old(server.world), me.sink, old(server.now), soft, around.trips) ==> r == Some(Err(ExecutorExited))
    ensures r.None? && old(server.world.sinks[me.sink].yielded).None? ==>
              && |old(server.schedule)| <= looked && QuietAt(server.schedule, me.sink, looked)
              && (around.trips.None? ==> |server.schedule| <= looked + 1)
  {
    hide Run, IsAnswer, WasStored, QuietAt;
    r, path, looked := AwaitSoftly(server, me, soft, hard, poll, around);
    if r.Some? {
      return;
    }
    // The cooperative window.
    ghost var window, still := server.schedule, server.world.sinks[me.sink].yielded.None?;
    var wake := Select(server, me, hard, None, None, around.lag);
    if wake.Yielded? {
      return Some(Ok(wake.task)), OnYield, looked;
    }
    if still {
      looked := LastBefore(|window|, |server.schedule|);
    }
    return None, OnYield, looked;
  }

  // The request's forced FAILED begins with step n; it last looked at its receiver, in vain, at m.
  ghost predicate ForcedAt(schedule: seq<Label>, me: Me, m: nat, n: nat) {
    m <= n < |schedule| && schedule[n] == WriterStart(me.writer, TIMED_OUT) && QuietAt(schedule, me.sink, m)
  }

  /** A terminal was forced on a sink that had not yielded when the wait, begun at moment
      `start`, last looked. Unless the token may trip, that is at most one step before. */
  ghost predicate ForcedInQuiet(schedule: seq<Label>, start: nat, me: Me, trips: bool) {
    exists m: nat, n: nat :: ForcedAt(schedule, me, m, n) && start <= m && (!trips ==> n <= m + 1)
  }

  /** The terminal is forced, since moment `start`, not before the deadline; and unless the token
      may trip, not after `late` either. */
  ghost predicate ForcedOnTime(schedule: seq<Label>, times: seq<int>, start: nat, me: Me, deadline: int,
                               late: int, trips: bool)
  {
    exists n: nat :: start <= n < |schedule| && StartsWriteAt(schedule, me, n)
                     && n < |times| && deadline <= times[n] && (trips || times[n] <= late)
  }

  predicate StartsWriteAt(schedule: seq<Label>, me: Me, n: nat) {
    n < |schedule| && schedule[n] == WriterStart(me.writer, TIMED_OUT)
  }

  /** On every schedule of yield, external cancel and deadlines, an Ok answer is a row as it
      was stored, its status durably committed, terminal or client-held: over `yielded` the
      row that this sink's own commit stored, and otherwise the task's one terminal. A forced
      one is the timeout's FAILED exactly if that commit won the compare-and-set. While the
      request keeps the sender of `yielded`, the wait never ends because the executor has
      exited, and nothing is forced before the hard deadline, or later than its two wake-ups
      are late. A forced answer fails exactly if
      a call of its write fails. What the sink had yielded before the wait is its answer, and
      nothing is forced on a sink that had yielded when the wait last looked: that is just
      before the write begins, unless someone trips the token and the wait turns to polls. If
      the task is terminal from the outset and the token is tripped in time, nothing is forced. */
  method AwaitYielded(server: Server, me: Me, blockingTimeout: nat, abortGrace: nat, poll: nat,
                      around: Surroundings, faults: WriteFaults)
    returns (r: Result<Task, SendError>, path: Path)
    requires server.Valid() && me.sink in server.world.sinks && me.writer !in server.world.writers && 0 < poll
    requires server.world.store.task.Some?
    modifies server
    ensures server.Later()
    ensures match r
            case Ok(t) => IsAnswer(server.schedule, me.sink, t, path)
            case Err(e) =>
              if path.Forced? then e == SendError.Store(Backend)
              else e == ExecutorExited && SenderGone(old(server.world), me.sink)
    ensures path.Forced? ==>
              server.now >= old(server.now) + blockingTimeout +
                            if SenderGone(old(server.world), me.sink) then 0 else abortGrace
    ensures WasReady(old(server.world), me.sink, old(server.now), old(server.now) + blockingTimeout + abortGrace) ==>
              AnswersAtOnce(old(server.world), me.sink, Some(r), path)
    ensures path.Forced? ==>
              ForcedOnTime(server.schedule, server.times, |old(server.schedule)|, me,
                           old(server.now) + blockingTimeout
                             + if SenderGone(old(server.world), me.sink) then 0 else abortGrace,
                           old(server.now) + blockingTimeout + abortGrace + 2 * around.lag, around.trips.Some?)
    ensures WasGone(old(server.world), me.sink, old(server.now), old(server.now) + blockingTimeout, around.trips) ==>
              r == Err(ExecutorExited) && !path.Forced?
    ensures Terminal(old(server.world.store))
            && PollsInTime(around, old(server.now), old(server.now) + blockingTimeout,
                           old(server.now) + blockingTimeout + abortGrace, poll) ==>
              !path.Forced?
    ensures path.Forced? && 0 < blockingTimeout + abortGrace ==>
              ForcedInQuiet(server.schedule, |old(server.schedule)|, me, around.trips.Some?)
    ensures path.Forced? <==> me.writer in server.world.writers
    ensures path.Forced? ==> (r.Err? <==> WriteFails(server.schedule, me.writer, faults))
    ensures path.Forced? && r.Err? ==> server.world.writers[me.writer].pc == GaveUp(Backend)
    ensures if path.Forced? && path.won
            then r.Ok? && WonBy(server.world.store, TIMED_OUT, me.writer, r.value)
            else NotBy(server.world.store, me.writer)
  {
    hide Run, WriteFails, IsAnswer, PollsInTime, WonBy, NotBy;
    var soft := server.now + blockingTimeout;
    ghost var start := |server.schedule|;
    var waited, how, looked := AwaitExecutor(server, me, soft, soft + abortGrace, poll, around);
    if waited.Some? {
      server.NothingWritten(me);
      return waited.value, how;
    }
    var won;
    ghost var before := server.schedule;
    r, won := ForceTimeout(server, me, faults);
    path := Forced(won);
    assert StartsWriteAt(server.schedule, me, |before|);
    if 0 < blockingTimeout + abortGrace {
      QuietThen(before, server.schedule, me.sink, looked);
      assert ForcedAt(server.schedule, me, looked, |before|);
    }
  }
}
