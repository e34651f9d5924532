// Tasks, their event logs, and replay: a task's status and artifacts as a fold of its log
// (crates/turul-a2a-types/src/task.rs, crates/turul-a2a/src/storage/atomic.rs).
module TaskLog {
  import opened Wrappers
  import opened Lifecycle

  type Id = nat

  datatype Status = Status(state: TaskState, message: Option<string>)

  datatype Artifact = Artifact(id: string, parts: seq<string>)

  datatype Task = Task(status: Status, artifacts: seq<Artifact>, history: seq<string>)

  datatype Event =
    | StatusUpdate(status: Status)
    | ArtifactUpdate(artifact: Artifact, append: bool, lastChunk: bool)

  // Which call committed an event: an emit on a sink, a framework terminal, or a send.
  // The log keeps it so that statements can name the winner of a race.
  datatype Author = ByEmit(id: Id) | ByWriter(id: Id) | BySend(id: Id)

  datatype Entry = Entry(event: Event, author: Author)

  // The part of a task that the event log determines.
  datatype View = View(status: Status, artifacts: seq<Artifact>)

  function ViewOf(t: Task): View {
    View(t.status, t.artifacts)
  }

  predicate TerminalEvent(e: Event) {
    e.StatusUpdate? && IsTerminal(e.status.state)
  }

  /** The index of the first artifact with this id, or |arts| if there is none. */
  function IndexOf(arts: seq<Artifact>, id: string): (i: nat)
    ensures i <= |arts|
    ensures i < |arts| ==> arts[i].id == id
    ensures forall k :: 0 <= k < i ==> arts[k].id != id
  {
    if arts == [] then 0
    else if arts[0].id == id then 0
    else
      var i := IndexOf(arts[1..], id);
      assert forall k :: 0 < k < i + 1 ==> arts[k] == arts[1..][k - 1];
      i + 1
  }

  function MergeArtifact(arts: seq<Artifact>, a: Artifact, append: bool): seq<Artifact> {
    var i := IndexOf(arts, a.id);
    if append && i < |arts| then arts[i := arts[i].(parts := arts[i].parts + a.parts)]
    else arts + [a]
  }

  function Apply(v: View, e: Event): View {
    match e
    case StatusUpdate(status) => v.(status := status)
    case ArtifactUpdate(a, append, _) => v.(artifacts := MergeArtifact(v.artifacts, a, append))
  }

  const CREATED: View := View(Status(Submitted, None), [])

  function ReplayOver(v: View, log: seq<Entry>): View {
    if log == [] then v
    else Apply(ReplayOver(v, log[..|log| - 1]), log[|log| - 1].event)
  }

  function Replay(log: seq<Entry>): View {
    ReplayOver(CREATED, log)
  }

  lemma {:induction false} ReplayOverConcat(v: View, a: seq<Entry>, b: seq<Entry>)
    ensures ReplayOver(v, a + b) == ReplayOver(ReplayOver(v, a), b)
  {
    if b == [] {
      assert a + b == a;
    } else {
      ReplayOverConcat(v, a, b[..|b| - 1]);
      assert (a + b)[..|a + b| - 1] == a + b[..|b| - 1];
    }
  }

  // ---- Where the parts of an emitted artifact go, and that they stay there ----

  // Artifact `artifact` of a view, from part `offset` on.
  datatype Slot = Slot(artifact: nat, offset: nat)

  function SlotOf(log: seq<Entry>, i: nat): Slot
    requires i < |log| && log[i].event.ArtifactUpdate?
  {
    var arts := Replay(log[..i]).artifacts;
    var k := IndexOf(arts, log[i].event.artifact.id);
    if log[i].event.append && k < |arts| then Slot(k, |arts[k].parts|) else Slot(|arts|, 0)
  }

  /** The parts emitted by event i sit in their slot of `arts`. */
  ghost predicate Holds(arts: seq<Artifact>, s: Slot, a: Artifact) {
    && s.artifact < |arts|
    && arts[s.artifact].id == a.id
    && s.offset + |a.parts| <= |arts[s.artifact].parts|
    && arts[s.artifact].parts[s.offset..s.offset + |a.parts|] == a.parts
  }

  /** An artifact event's parts stay in the slot they were first put in, whatever follows. */
  lemma {:induction false} PartsAreKept(log: seq<Entry>, i: nat, n: nat)
    requires i < n <= |log| && log[i].event.ArtifactUpdate?
    ensures Holds(Replay(log[..n]).artifacts, SlotOf(log, i), log[i].event.artifact)
  {
    var prev, last := log[..n - 1], log[n - 1];
    assert log[..n][..n - 1] == prev;
    if n - 1 > i {
      PartsAreKept(log, i, n - 1);
      var s, a := SlotOf(log, i), log[i].event.artifact;
      var before, after := Replay(prev).artifacts, Replay(log[..n]).artifacts;
      assert after[s.artifact].parts[..|before[s.artifact].parts|] == before[s.artifact].parts;
      assert after[s.artifact].parts[s.offset..s.offset + |a.parts|]
          == before[s.artifact].parts[s.offset..s.offset + |a.parts|];
    }
  }

  /** Slots of different events never overlap, and within one artifact they follow log order. */
  lemma SlotsAreOrdered(log: seq<Entry>, i: nat, j: nat)
    requires i < j < |log| && log[i].event.ArtifactUpdate? && log[j].event.ArtifactUpdate?
    ensures SlotOf(log, i).artifact == SlotOf(log, j).artifact
            ==> SlotOf(log, i).offset + |log[i].event.artifact.parts| <= SlotOf(log, j).offset
  {
    PartsAreKept(log, i, j);
  }

  function PartCount(arts: seq<Artifact>): nat {
    if arts == [] then 0 else |arts[0].parts| + PartCount(arts[1..])
  }

  function PartsIn(e: Event): nat {
    match e
    case StatusUpdate(_) => 0
    case ArtifactUpdate(a, _, _) => |a.parts|
  }

  function EmittedParts(log: seq<Entry>): nat {
    if log == [] then 0
    else EmittedParts(log[..|log| - 1]) + PartsIn(log[|log| - 1].event)
  }

  lemma {:induction false} MergeAddsParts(arts: seq<Artifact>, a: Artifact, append: bool)
    ensures PartCount(MergeArtifact(arts, a, append)) == PartCount(arts) + |a.parts|
  {
    var i := IndexOf(arts, a.id);
    if append && i < |arts| {
      ExtendAddsParts(arts, i, a.parts);
    } else {
      ConcatAddsParts(arts, a);
    }
  }

  lemma {:induction false} ExtendAddsParts(arts: seq<Artifact>, i: nat, parts: seq<string>)
    requires i < |arts|
    ensures PartCount(arts[i := arts[i].(parts := arts[i].parts + parts)]) == PartCount(arts) + |parts|
  {
    var after := arts[i := arts[i].(parts := arts[i].parts + parts)];
    if i == 0 {
      assert after[1..] == arts[1..];
    } else {
      ExtendAddsParts(arts[1..], i - 1, parts);
      assert after[1..] == arts[1..][i - 1 := after[i]];
    }
  }

  lemma {:induction false} ConcatAddsParts(arts: seq<Artifact>, a: Artifact)
    ensures PartCount(arts + [a]) == PartCount(arts) + |a.parts|
  {
    if arts == [] {
      assert arts + [a] == [a];
    } else {
      ConcatAddsParts(arts[1..], a);
      assert (arts + [a])[1..] == arts[1..] + [a];
    }
  }

  /** Replay neither drops nor invents parts. */
  lemma {:induction false} PartsAreConserved(log: seq<Entry>)
    ensures PartCount(Replay(log).artifacts) == EmittedParts(log)
  {
    if log != [] {
      var e := log[|log| - 1].event;
      PartsAreConserved(log[..|log| - 1]);
      if e.ArtifactUpdate? {
        MergeAddsParts(Replay(log[..|log| - 1]).artifacts, e.artifact, e.append);
      }
    }
  }

  // ---- The status events of a log ----

  function StatesIn(e: Event): seq<TaskState> {
    match e
    case StatusUpdate(s) => [s.state]
    case ArtifactUpdate(_, _, _) => []
  }

  function Statuses(log: seq<Entry>): seq<TaskState> {
    if log == [] then []
    else Statuses(log[..|log| - 1]) + StatesIn(log[|log| - 1].event)
  }

  /** A log as the stores write it: it opens with the creation in SUBMITTED, and each
      status event is an allowed move from the status replayed so far. */
  ghost predicate LegalLog(log: seq<Entry>) {
    && log != []
    && log[0].event == StatusUpdate(CREATED.status)
    && forall j :: 0 < j < |log| && log[j].event.StatusUpdate? ==>
         ValidateTransition(Replay(log[..j]).status.state, log[j].event.status.state).Allowed?
  }

  lemma LegalLogGrows(log: seq<Entry>, e: Entry)
    requires LegalLog(log)
    requires e.event.StatusUpdate? ==> ValidateTransition(Replay(log).status.state, e.event.status.state).Allowed?
    ensures LegalLog(log + [e])
  {
    var after := log + [e];
    assert after[..|log|] == log;
    forall j | 0 < j < |after| && after[j].event.StatusUpdate?
      ensures ValidateTransition(Replay(after[..j]).status.state, after[j].event.status.state).Allowed?
    {
      assert j < |log| ==> after[..j] == log[..j];
    }
  }

  lemma LegalPrefix(log: seq<Entry>, n: nat)
    requires LegalLog(log) && 0 < n <= |log|
    ensures LegalLog(log[..n])
  {
    forall j | 0 < j < n ensures log[..n][..j] == log[..j] {
    }
  }

  /** When one more entry keeps a log legal. */
  lemma OneMoreIsLegal(log: seq<Entry>, x: Entry)
    requires log != [] ==> LegalLog(log)
    ensures LegalLog(log + [x]) <==>
              if log == [] then x.event == StatusUpdate(CREATED.status)
              else x.event.StatusUpdate? ==>
                     ValidateTransition(Replay(log).status.state, x.event.status.state).Allowed?
  {
    var after := log + [x];
    assert after[..|log|] == log && after[|log|] == x;
    if log != [] && (x.event.StatusUpdate? ==>
                       ValidateTransition(Replay(log).status.state, x.event.status.state).Allowed?) {
      LegalLogGrows(log, x);
    }
  }

  lemma OneMoreReplays(log: seq<Entry>, x: Entry)
    ensures Replay(log + [x]) == Apply(Replay(log), x.event)
  {
    assert (log + [x])[..|log|] == log;
  }

  lemma OneMoreStatus(log: seq<Entry>, x: Entry)
    ensures Statuses(log + [x]) == Statuses(log) + StatesIn(x.event)
  {
    assert (log + [x])[..|log|] == log;
  }

  lemma PathGrows(states: seq<TaskState>, s: TaskState)
    requires states != []
    ensures Path(states + [s]) <==> Path(states) && ValidateTransition(states[|states| - 1], s).Allowed?
  {
    var after := states + [s];
    if Path(after) {
      forall i | 0 < i < |states| ensures ValidateTransition(states[i - 1], states[i]).Allowed? {
        assert after[i - 1] == states[i - 1] && after[i] == states[i];
      }
      assert after[|states| - 1] == states[|states| - 1] && after[|states|] == s;
    }
  }

  lemma {:induction false} CreationIsAPath(log: seq<Entry>)
    requires |log| == 1 && log[0].event == StatusUpdate(CREATED.status)
    ensures LegalLog(log) && Path(Statuses(log))
    ensures Statuses(log) == [Submitted] && Replay(log).status.state == Submitted
  {
    assert log[..0] == [];
    assert Statuses(log[..0]) == [];
  }

  lemma LegalPathGrows(log: seq<Entry>, x: Entry)
    requires log != [] && Statuses(log) != [] && (LegalLog(log) <==> Path(Statuses(log)))
    requires Replay(log).status.state == Statuses(log)[|Statuses(log)| - 1]
    ensures LegalLog(log + [x]) <==> Path(Statuses(log + [x]))
    ensures Statuses(log + [x]) != []
    ensures Replay(log + [x]).status.state == Statuses(log + [x])[|Statuses(log + [x])| - 1]
  {
    hide LegalLog, Path, Statuses, Replay, ValidateTransition;
    OneMoreStatus(log, x);
    OneMoreReplays(log, x);
    if LegalLog(log + [x]) {
      LegalPrefix(log + [x], |log|);
      assert (log + [x])[..|log|] == log;
    }
    if LegalLog(log) {
      OneMoreIsLegal(log, x);
    }
    if x.event.StatusUpdate? {
      PathGrows(Statuses(log), x.event.status.state);
    } else {
      assert Statuses(log) + [] == Statuses(log);
    }
  }

  /** A log that opens with the creation is legal exactly if its status events are a path of
      the state machine; the path ends in the replayed status. */
  lemma {:induction false} LegalIsAPath(log: seq<Entry>)
    requires log != [] && log[0].event == StatusUpdate(CREATED.status)
    ensures LegalLog(log) <==> Path(Statuses(log))
    ensures Statuses(log) != [] && Replay(log).status.state == Statuses(log)[|Statuses(log)| - 1]
  {
    hide LegalLog, Path, Statuses, Replay;
    var n := |log| - 1;
    if n == 0 {
      CreationIsAPath(log);
    } else {
      LegalIsAPath(log[..n]);
      LegalPathGrows(log[..n], log[n]);
      assert log == log[..n] + [log[n]];
    }
  }

  /** The status replayed from a log is that of its last status event. */
  lemma {:induction false} LastStatusEvent(log: seq<Entry>) returns (k: nat)
    requires LegalLog(log)
    ensures k < |log| && log[k].event == StatusUpdate(Replay(log).status)
    ensures forall i :: k < i < |log| ==> log[i].event.ArtifactUpdate?
  {
    var n := |log| - 1;
    if log[n].event.StatusUpdate? {
      k := n;
    } else {
      LegalPrefix(log, n);
      k := LastStatusEvent(log[..n]);
    }
  }

  /** Nothing moves to SUBMITTED, so only the creation says it. */
  lemma SubmittedOnlyAtCreation(log: seq<Entry>, k: nat)
    requires LegalLog(log) && k < |log| && log[k].event.StatusUpdate? && log[k].event.status.state.Submitted?
    ensures k == 0
  {
  }

  /** Between two WORKING events lies an event that hands the task to the client: of all
      the follow-ups to one interruption, at most one moves the task to WORKING. */
  lemma WorkingNeedsAnInterrupt(log: seq<Entry>, i: nat, j: nat)
    requires LegalLog(log) && i < j < |log|
    requires log[i].event.StatusUpdate? && log[i].event.status.state.Working?
    requires log[j].event.StatusUpdate? && log[j].event.status.state.Working?
    ensures exists k :: i < k < j && log[k].event.StatusUpdate? && ClientHeld(log[k].event.status.state)
  {
    assert ValidateTransition(Replay(log[..j]).status.state, Working).Allowed?;
    hide LegalLog, Replay;
    LegalPrefix(log, j);
    var k := LastStatusEvent(log[..j]);
    assert log[..j][k] == log[k] && log[..j][i] == log[i];
    if log[k].event.status.state.Submitted? {
      SubmittedOnlyAtCreation(log, k);
    }
  }

  // ---- The task object whose fields the source updates in place ----

  class MutableTask {
    var status: Status
    var artifacts: seq<Artifact>
    var history: seq<string>

    constructor (t: Task)
      ensures Value() == t
    {
      status, artifacts, history := t.status, t.artifacts, t.history;
    }

    function Value(): Task
      reads this
    {
      Task(status, artifacts, history)
    }

    method Merge(a: Artifact, append: bool)
      modifies this
      ensures Value() == old(Value()).(artifacts := MergeArtifact(old(artifacts), a, append))
    {
      if append {
        var i := 0;
        while i < |artifacts| && artifacts[i].id != a.id
          invariant 0 <= i <= |artifacts|
          invariant forall k :: 0 <= k < i ==> artifacts[k].id != a.id
        {
          i := i + 1;
        }
        assert i == IndexOf(artifacts, a.id);
        if i < |artifacts| {
          artifacts := artifacts[i := artifacts[i].(parts := artifacts[i].parts + a.parts)];
          return;
        }
      }
      artifacts := artifacts + [a];
    }
  }
}
