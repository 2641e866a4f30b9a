/** The phase timeline of the SDK's session state and the change events it emits. */
module PhaseTimeline {
  import opened Common

  datatype Status = Pending | Generating | Implementing | Validating | Completed | Cancelled

  datatype FileStatus = FilePending | FileGenerating | FileCompleted | FileCancelled

  datatype PhaseFile = PhaseFile(path: string, purpose: string, status: FileStatus)

  datatype Phase = Phase(id: string, name: string, description: string, status: Status, files: seq<PhaseFile>)

  datatype FileConcept = FileConcept(path: string, purpose: string)

  datatype GeneratedPhase = GeneratedPhase(name: string, description: string, files: seq<FileConcept>, completed: bool)

  datatype AgentState = AgentState(phasic: bool, shouldBeGenerating: bool, phases: seq<GeneratedPhase>,
      generatedFiles: set<string>)

  datatype PhaseKind = PGenerating | PGenerated | PImplementing | PImplemented | PValidating | PValidated

  /** The server messages that touch the timeline; any other message leaves it alone. */
  datatype Message =
    | PhaseMessage(kind: PhaseKind, name: Option<string>, description: Option<string>, files: Option<seq<FileConcept>>)
    | FileStarted(path: string)
    | FileDone(file: Option<string>)
    | AgentConnected(state: AgentState)
    | Unrelated

  // ---------- phase ids ----------

  function Digits(n: nat): string {
    var digit := ['0' + (n % 10) as char];
    if n < 10 then digit else Digits(n / 10) + digit
  }

  function PhaseId(index: nat): string { "phase-" + Digits(index) }

  function Value(digits: string): int {
    if digits == "" then 0 else 10 * Value(digits[..|digits| - 1]) + (digits[|digits| - 1] as int - '0' as int)
  }

  lemma {:induction false} DigitsHaveValue(n: nat)
    ensures Value(Digits(n)) == n
  {
    var digit := '0' + (n % 10) as char;
    if n < 10 {
      assert Digits(n)[..0] == "";
    } else {
      DigitsHaveValue(n / 10);
      assert Digits(n)[..|Digits(n)| - 1] == Digits(n / 10);
    }
  }

  lemma {:induction false} DigitsAreDecimal(n: nat)
    ensures Digits(n) != "" && (forall c | c in Digits(n) :: '0' <= c <= '9') && (n > 0 ==> Digits(n)[0] != '0')
  {
    if n >= 10 {
      DigitsAreDecimal(n / 10);
    }
  }

  /** An id is the word phase, a dash and the index in decimal. */
  lemma PhaseIdReads(index: nat)
    ensures PhaseId(index)[..6] == "phase-"
    ensures var digits := PhaseId(index)[6..];
            && digits != "" && (forall c | c in digits :: '0' <= c <= '9') && (index > 0 ==> digits[0] != '0')
            && Value(digits) == index
  {
    DigitsAreDecimal(index);
    DigitsHaveValue(index);
    assert PhaseId(index)[6..] == Digits(index);
  }

  lemma {:induction false} PhaseIdsDiffer(i: nat, j: nat)
    ensures PhaseId(i) == PhaseId(j) <==> i == j
  {
    DigitsHaveValue(i);
    DigitsHaveValue(j);
    assert PhaseId(i)[6..] == Digits(i) && PhaseId(j)[6..] == Digits(j);
  }

  // ---------- new timelines ----------

  function SeedFile(f: FileConcept, generated: set<string>, active: bool): PhaseFile {
    PhaseFile(f.path, f.purpose,
              if f.path in generated then FileCompleted else if active then FilePending else FileCancelled)
  }

  function Map<A, B>(s: seq<A>, f: A -> B): (r: seq<B>)
    ensures |r| == |s| && forall i | 0 <= i < |s| :: r[i] == f(s[i])
  {
    seq(|s|, i requires 0 <= i < |s| => f(s[i]))
  }

  function SeedPhase(state: AgentState, i: nat): Phase
    requires i < |state.phases|
  {
    var phase := state.phases[i];
    var status := if phase.completed then Completed else if state.shouldBeGenerating then Generating else Cancelled;
    Phase(PhaseId(i), phase.name, phase.description, status,
          Map(phase.files, f => SeedFile(f, state.generatedFiles, state.shouldBeGenerating)))
  }

  /** The timeline the agent reports when it connects. */
  function Seed(state: AgentState): seq<Phase> {
    if state.phasic then seq(|state.phases|, i requires 0 <= i < |state.phases| => SeedPhase(state, i)) else []
  }

  function WithFileStatus(files: seq<PhaseFile>, path: string, status: FileStatus): seq<PhaseFile> {
    Map(files, (f: PhaseFile) => if f.path == path then f.(status := status) else f)
  }

  function SetFileStatus(phases: seq<Phase>, path: string, status: FileStatus): seq<Phase> {
    Map(phases, (p: Phase) => p.(files := WithFileStatus(p.files, path, status)))
  }

  /** The first phase with this name, or -1. */
  function FindName(phases: seq<Phase>, name: Option<string>): (k: int)
    ensures -1 <= k < |phases|
    ensures k >= 0 ==> name == Some(phases[k].name)
    ensures forall i | 0 <= i < (if k < 0 then |phases| else k) :: name != Some(phases[i].name)
  {
    if phases == [] then -1
    else
      var k := FindName(phases[..|phases| - 1], name);
      if k < 0 && name == Some(phases[|phases| - 1].name) then |phases| - 1 else k
  }

  function Listed(files: Option<seq<FileConcept>>, status: FileStatus): seq<PhaseFile> {
    if files.None? then [] else Map(files.value, (f: FileConcept) => PhaseFile(f.path, f.purpose, status))
  }

  function UpdateOrAdd(phases: seq<Phase>, name: Option<string>, description: Option<string>,
                       status: Status, concepts: Option<seq<FileConcept>>): seq<Phase> {
    var k := FindName(phases, name);
    var files := Listed(concepts, if status.Completed? then FileCompleted else FilePending);
    if k >= 0 then
      phases[k := phases[k].(
        status := status,
        description := if description.Some? then description.value else phases[k].description,
        files := if files != [] then files else phases[k].files)]
    else if name.Some? && name.value != "" then
      var text := if description.Some? then description.value else "";
      phases + [Phase(PhaseId(|phases|), name.value, text, status, files)]
    else phases
  }

  function StatusAfter(kind: PhaseKind): Status {
    match kind
    case PGenerating => Generating
    case PGenerated => Implementing
    case PImplementing => Implementing
    case PImplemented => Validating
    case PValidating => Validating
    case PValidated => Completed
  }

  function Apply(phases: seq<Phase>, msg: Message): seq<Phase> {
    match msg
    case PhaseMessage(kind, name, description, files) =>
      UpdateOrAdd(phases, name, description, StatusAfter(kind), files)
    case FileStarted(path) => SetFileStatus(phases, path, FileGenerating)
    case FileDone(path) =>
      if path.Some? && path.value != "" then SetFileStatus(phases, path.value, FileCompleted) else phases
    case AgentConnected(state) => Seed(state)
    case Unrelated => phases
  }

  // ---------- change events ----------

  datatype Change = Added | Updated

  datatype TimelineEvent = TimelineEvent(change: Change, phase: Phase)

  /** What counts as a change of a phase: its status and its files' statuses. */
  datatype Look = Look(status: Status, files: seq<FileStatus>)

  function LookOf(p: Phase): Look { Look(p.status, Map(p.files, (f: PhaseFile) => f.status)) }

  function FindId(phases: seq<Phase>, id: string): Option<Phase> {
    if phases == [] then None
    else
      var found := FindId(phases[..|phases| - 1], id);
      if found.None? && phases[|phases| - 1].id == id then Some(phases[|phases| - 1]) else found
  }

  function DiffPhase(prev: seq<Phase>, phase: Phase): seq<TimelineEvent> {
    var before := FindId(prev, phase.id);
    if before.None? then [TimelineEvent(Added, phase)]
    else if LookOf(before.value) != LookOf(phase) then [TimelineEvent(Updated, phase)]
    else []
  }

  function Diff(prev: seq<Phase>, next: seq<Phase>): seq<TimelineEvent> {
    if next == [] then [] else Diff(prev, next[..|next| - 1]) + DiffPhase(prev, next[|next| - 1])
  }

  /** Each event shows one of the phases as they are now, as added if its id was not there before and as updated
      otherwise. */
  lemma {:induction false} EventsSayWhatHappened(prev: seq<Phase>, next: seq<Phase>, e: TimelineEvent)
    requires e in Diff(prev, next)
    ensures e.phase in next
    ensures e.change == if exists p :: p in prev && p.id == e.phase.id then Updated else Added
  {
    var front, last := next[..|next| - 1], next[|next| - 1];
    if e in Diff(prev, front) {
      EventsSayWhatHappened(prev, front, e);
    } else {
      FindIdFinds(prev, last.id);
    }
  }

  lemma {:induction false} FindIdFinds(phases: seq<Phase>, id: string)
    ensures FindId(phases, id).Some? <==> exists p :: p in phases && p.id == id
    ensures FindId(phases, id).Some? ==> FindId(phases, id).value.id == id
  {
    if phases != [] {
      var front, last := phases[..|phases| - 1], phases[|phases| - 1];
      FindIdFinds(front, id);
      assert phases == front + [last];
    }
  }

  /** Messages that leave the phases array itself in place emit nothing. */
  function Emits(phases: seq<Phase>, msg: Message): seq<TimelineEvent> {
    if msg.Unrelated? || (msg.FileDone? && (msg.file.None? || msg.file.value == "")) then []
    else Diff(phases, Apply(phases, msg))
  }

  // ---------- the object ----------

  class SessionStateStore {
    var phases: seq<Phase>
    var events: seq<TimelineEvent>

    constructor ()
      ensures phases == [] && events == []
    {
      phases, events := [], [];
    }

    method ApplyWsMessage(msg: Message)
      modifies this
      ensures phases == Apply(old(phases), msg)
      ensures events == old(events) + Emits(old(phases), msg)
    {
      var prev := phases;
      match msg {
        case PhaseMessage(kind, name, description, files) =>
          phases := UpdateOrAdd(phases, name, description, StatusAfter(kind), files);
          EmitPhaseChanges(prev, phases);
        case FileStarted(path) =>
          phases := SetFileStatus(phases, path, FileGenerating);
          EmitPhaseChanges(prev, phases);
        case FileDone(path) =>
          if path.Some? && path.value != "" {
            phases := SetFileStatus(phases, path.value, FileCompleted);
            EmitPhaseChanges(prev, phases);
          }
        case AgentConnected(state) =>
          phases := Seed(state);
          EmitPhaseChanges(prev, phases);
        case Unrelated =>
      }
    }

    method EmitPhaseChanges(prevPhases: seq<Phase>, nextPhases: seq<Phase>)
      modifies `events
      ensures events == old(events) + Diff(prevPhases, nextPhases)
    {
      for i := 0 to |nextPhases|
        invariant events == old(events) + Diff(prevPhases, nextPhases[..i])
      {
        var phase := nextPhases[i];
        assert nextPhases[..i + 1][..i] == nextPhases[..i];
        var prevPhase := FindId(prevPhases, phase.id);
        if prevPhase.None? {
          events := events + [TimelineEvent(Added, phase)];
        } else {
          var changed := HasPhaseChanged(prevPhase.value, phase);
          if changed {
            events := events + [TimelineEvent(Updated, phase)];
          }
        }
      }
      assert nextPhases[..|nextPhases|] == nextPhases;
    }
  }

  method HasPhaseChanged(prev: Phase, next: Phase) returns (changed: bool)
    ensures changed <==> LookOf(prev) != LookOf(next)
  {
    if prev.status != next.status { return true; }
    if |prev.files| != |next.files| { return true; }
    for i := 0 to |prev.files|
      invariant forall k | 0 <= k < i :: prev.files[k].status == next.files[k].status
    {
      if prev.files[i].status != next.files[i].status {
        assert LookOf(prev).files[i] != LookOf(next).files[i];
        return true;
      }
    }
    return false;
  }

  // ---------- ids and names ----------

  ghost predicate WellFormed(phases: seq<Phase>) {
    forall i | 0 <= i < |phases| :: phases[i].id == PhaseId(i)
  }

  function Names(phases: seq<Phase>): seq<string> {
    Map(phases, (p: Phase) => p.name)
  }

  ghost predicate Distinct(names: seq<string>) {
    forall i, j | 0 <= i < j < |names| :: names[i] != names[j]
  }

  lemma {:induction false} StepKeepsIds(phases: seq<Phase>, msg: Message)
    requires WellFormed(phases)
    ensures WellFormed(Apply(phases, msg))
  {
  }

  /** Phase and file messages keep every phase where it is and its name as it is; at most one new name is added,
      and only if it was not there. */
  lemma {:induction false} StepKeepsNames(phases: seq<Phase>, msg: Message)
    requires !msg.AgentConnected?
    ensures var next := Names(Apply(phases, msg));
            Names(phases) <= next && |next| <= |phases| + 1 && (Distinct(Names(phases)) ==> Distinct(next))
  {
  }

  /** Applying the same phase or file message twice in a row is applying it once, and the second time emits nothing. */
  lemma {:induction false} RepeatedMessageChangesNothing(phases: seq<Phase>, msg: Message)
    requires WellFormed(phases) && !msg.AgentConnected?
    ensures Apply(Apply(phases, msg), msg) == Apply(phases, msg)
    ensures Emits(Apply(phases, msg), msg) == []
  {
    StepKeepsIds(phases, msg);
    ApplyTwice(phases, msg);
    SameLookEmitsNothing(Apply(phases, msg), Apply(phases, msg));
  }

  lemma FoundAt(phases: seq<Phase>, name: Option<string>, k: nat)
    requires k < |phases| && name == Some(phases[k].name)
    requires forall i | 0 <= i < k :: name != Some(phases[i].name)
    ensures FindName(phases, name) == k
  {
    var found := FindName(phases, name);
    assert Some(phases[k].name) == name;
  }

  lemma {:induction false} ApplyTwice(phases: seq<Phase>, msg: Message)
    requires !msg.AgentConnected?
    ensures Apply(Apply(phases, msg), msg) == Apply(phases, msg)
  {
    var once := Apply(phases, msg);
    var twice := Apply(once, msg);
    match msg
    case PhaseMessage(kind, name, description, files) =>
      var k := FindName(phases, name);
      if k >= 0 {
        FoundAt(once, name, k);
      } else if |once| > |phases| {
        FoundAt(once, name, |phases|);
      }
    case FileStarted(path) =>
      forall i | 0 <= i < |once| ensures once[i] == twice[i] {
        assert once[i].files == twice[i].files;
      }
    case FileDone(path) =>
      forall i | 0 <= i < |once| ensures once[i] == twice[i] {
        assert once[i].files == twice[i].files;
      }
    case Unrelated =>
  }

  // ---------- the event stream ----------

  lemma {:induction false} FindIdAt(phases: seq<Phase>, k: nat)
    requires WellFormed(phases)
    ensures FindId(phases, PhaseId(k)) == if k < |phases| then Some(phases[k]) else None
  {
    if phases != [] {
      FindIdAt(phases[..|phases| - 1], k);
      PhaseIdsDiffer(k, |phases| - 1);
    }
  }

  lemma {:induction false} SameLookEmitsNothing(prev: seq<Phase>, next: seq<Phase>)
    requires WellFormed(prev) && WellFormed(next) && |next| <= |prev|
    requires forall i | 0 <= i < |next| :: LookOf(prev[i]) == LookOf(next[i])
    ensures Diff(prev, next) == []
  {
    if next != [] {
      SameLookEmitsNothing(prev, next[..|next| - 1]);
      FindIdAt(prev, |next| - 1);
    }
  }

  /** A subscriber that only stores, by id, the look of each event's phase. */
  function Replay(mirror: map<string, Look>, events: seq<TimelineEvent>): map<string, Look> {
    if events == [] then mirror
    else
      var last := events[|events| - 1];
      Replay(mirror, events[..|events| - 1])[last.phase.id := LookOf(last.phase)]
  }

  lemma {:induction false} ReplayAppend(mirror: map<string, Look>, a: seq<TimelineEvent>, b: seq<TimelineEvent>)
    ensures Replay(mirror, a + b) == Replay(Replay(mirror, a), b)
  {
    if b == [] {
      assert a + b == a;
    } else {
      assert (a + b)[..|a + b| - 1] == a + b[..|b| - 1];
      ReplayAppend(mirror, a, b[..|b| - 1]);
    }
  }

  /** The mirror knows phases 0 to `high` - 1, and shows the present ones as they are. */
  ghost predicate Mirrors(mirror: map<string, Look>, phases: seq<Phase>, high: nat) {
    && |phases| <= high
    && (forall i: nat :: i < high <==> PhaseId(i) in mirror)
    && (forall i | 0 <= i < |phases| :: PhaseId(i) in mirror && mirror[PhaseId(i)] == LookOf(phases[i]))
  }

  /** Half way through an emission: the first `k` phases are shown as they are in `next`, the others as in `prev`. */
  ghost predicate MirrorsUpTo(mirror: map<string, Look>, prev: seq<Phase>, next: seq<Phase>, k: nat, high: nat) {
    && k <= |next|
    && (forall i: nat :: PhaseId(i) in mirror <==> i < high || i < k)
    && (forall i | 0 <= i < k :: PhaseId(i) in mirror && mirror[PhaseId(i)] == LookOf(next[i]))
    && (forall i | k <= i < |prev| :: PhaseId(i) in mirror && mirror[PhaseId(i)] == LookOf(prev[i]))
  }

  lemma {:induction false} MirrorOnePhase(
    mirror: map<string, Look>, prev: seq<Phase>, next: seq<Phase>, k: nat, high: nat)
    requires WellFormed(prev) && WellFormed(next) && k < |next| && |prev| <= high
    requires MirrorsUpTo(mirror, prev, next, k, high)
    ensures MirrorsUpTo(Replay(mirror, DiffPhase(prev, next[k])), prev, next, k + 1, high)
  {
    var events := DiffPhase(prev, next[k]);
    FindIdAt(prev, k);
    assert events != [] ==> events[..|events| - 1] == [];
    forall i: nat ensures PhaseId(i) == PhaseId(k) <==> i == k {
      PhaseIdsDiffer(i, k);
    }
  }

  lemma {:induction false} MirrorFollows(
    mirror: map<string, Look>, prev: seq<Phase>, next: seq<Phase>, k: nat, high: nat)
    requires WellFormed(prev) && WellFormed(next) && k <= |next| && Mirrors(mirror, prev, high)
    ensures MirrorsUpTo(Replay(mirror, Diff(prev, next[..k])), prev, next, k, high)
  {
    if k > 0 {
      MirrorFollows(mirror, prev, next, k - 1, high);
      assert next[..k][..k - 1] == next[..k - 1];
      ReplayAppend(mirror, Diff(prev, next[..k - 1]), DiffPhase(prev, next[k - 1]));
      MirrorOnePhase(Replay(mirror, Diff(prev, next[..k - 1])), prev, next, k - 1, high);
    }
  }

  function Max(a: nat, b: nat): nat { if a < b then b else a }

  lemma {:induction false} StepKeepsMirror(mirror: map<string, Look>, phases: seq<Phase>, msg: Message, high: nat)
    requires WellFormed(phases) && Mirrors(mirror, phases, high)
    ensures Mirrors(Replay(mirror, Emits(phases, msg)), Apply(phases, msg), Max(high, |Apply(phases, msg)|))
  {
    var next := Apply(phases, msg);
    StepKeepsIds(phases, msg);
    MirrorFollows(mirror, phases, next, |next|, high);
    assert next[..|next|] == next;
  }

  /** Timeline, events and greatest timeline length after a run of messages. */
  function Run(phases: seq<Phase>, msgs: seq<Message>): (seq<Phase>, seq<TimelineEvent>, nat) {
    if msgs == [] then (phases, [], |phases|)
    else
      var before := Run(phases, msgs[..|msgs| - 1]);
      var msg := msgs[|msgs| - 1];
      var next := Apply(before.0, msg);
      (next, before.1 + Emits(before.0, msg), Max(before.2, |next|))
  }

  /** After any messages, including any number of full replacements by `agent_connected`: phase i has id
      `phase-i`, and a mirror that only upserts each event's phase by id shows the status and the file statuses
      of every phase of the current timeline; it knows exactly the ids of the longest timeline there was. */
  lemma {:induction false} EventStreamIsFaithful(msgs: seq<Message>)
    ensures var (phases, events, high) := Run([], msgs);
            WellFormed(phases) && Mirrors(Replay(map[], events), phases, high)
  {
    if msgs != [] {
      var (phases, events, high) := Run([], msgs[..|msgs| - 1]);
      var msg := msgs[|msgs| - 1];
      EventStreamIsFaithful(msgs[..|msgs| - 1]);
      StepKeepsIds(phases, msg);
      StepKeepsMirror(Replay(map[], events), phases, msg, high);
      ReplayAppend(map[], events, Emits(phases, msg));
    }
  }

  /** Once seeded with distinct names, the timeline keeps distinct names, and every phase its place
      and name, under all later phase and file messages. */
  lemma {:induction false} NamesStayDistinct(phases: seq<Phase>, msgs: seq<Message>)
    requires Distinct(Names(phases)) && forall msg | msg in msgs :: !msg.AgentConnected?
    ensures Distinct(Names(Run(phases, msgs).0)) && Names(phases) <= Names(Run(phases, msgs).0)
  {
    if msgs != [] {
      NamesStayDistinct(phases, msgs[..|msgs| - 1]);
      StepKeepsNames(Run(phases, msgs[..|msgs| - 1]).0, msgs[|msgs| - 1]);
    }
  }

  // ---------- one phase through a run ----------

  /** What the timeline shows of the phase with a given name. */
  datatype View = View(description: string, status: Status, files: seq<PhaseFile>)

  function ViewOf(phases: seq<Phase>, name: string): Option<View> {
    var k := FindName(phases, Some(name));
    if k < 0 then None else Some(View(phases[k].description, phases[k].status, phases[k].files))
  }

  function WithStatus(view: Option<View>, path: string, status: FileStatus): Option<View> {
    if view.None? then None
    else Some(view.value.(files := WithFileStatus(view.value.files, path, status)))
  }

  /** What a message does to one phase, from that phase's view alone. */
  function Follow(view: Option<View>, msg: Message, name: string): Option<View> {
    match msg
    case PhaseMessage(kind, n, description, files) =>
      if n != Some(name) || (view.None? && name == "") then view
      else
        var known := if view.Some? then view.value else View("", Pending, []);
        var listed := Listed(files, if kind.PValidated? then FileCompleted else FilePending);
        Some(View(if description.Some? then description.value else known.description, StatusAfter(kind),
                  if listed != [] then listed else known.files))
    case FileStarted(path) => WithStatus(view, path, FileGenerating)
    case FileDone(path) => if path.Some? && path.value != "" then WithStatus(view, path.value, FileCompleted) else view
    case AgentConnected(state) => ViewOf(Seed(state), name)
    case Unrelated => view
  }

  function FollowAll(view: Option<View>, msgs: seq<Message>, name: string): Option<View> {
    if msgs == [] then view else Follow(FollowAll(view, msgs[..|msgs| - 1], name), msgs[|msgs| - 1], name)
  }

  lemma {:induction false} FindNameByNames(a: seq<Phase>, b: seq<Phase>, name: Option<string>)
    requires |a| == |b| && forall i | 0 <= i < |a| :: a[i].name == b[i].name
    ensures FindName(a, name) == FindName(b, name)
  {
    if a != [] {
      FindNameByNames(a[..|a| - 1], b[..|b| - 1], name);
    }
  }

  lemma FindNameSnoc(phases: seq<Phase>, p: Phase, name: Option<string>)
    ensures var k := FindName(phases, name);
            FindName(phases + [p], name) == if k < 0 && name == Some(p.name) then |phases| else k
  {
    assert (phases + [p])[..|phases|] == phases;
  }

  lemma FollowKnown(phases: seq<Phase>, msg: Message, name: string)
    requires msg.PhaseMessage? && FindName(phases, msg.name) >= 0
    ensures ViewOf(Apply(phases, msg), name) == Follow(ViewOf(phases, name), msg, name)
  {
    var next := Apply(phases, msg);
    FindNameByNames(phases, next, Some(name));
    if msg.name != Some(name) { assert FindName(phases, Some(name)) != FindName(phases, msg.name); }
  }

  lemma FollowNew(phases: seq<Phase>, msg: Message, name: string)
    requires msg.PhaseMessage? && FindName(phases, msg.name) < 0
    ensures ViewOf(Apply(phases, msg), name) == Follow(ViewOf(phases, name), msg, name)
  {
    if msg.name.Some? && msg.name.value != "" {
      AddsPhase(phases, msg);
      ViewOfSnoc(phases, NewPhase(phases, msg), name);
      if msg.name == Some(name) { FollowFromNothing(phases, msg); }
    }
  }

  function NewPhase(phases: seq<Phase>, msg: Message): Phase
    requires msg.PhaseMessage? && msg.name.Some?
  {
    var text := if msg.description.Some? then msg.description.value else "";
    Phase(PhaseId(|phases|), msg.name.value, text, StatusAfter(msg.kind),
          Listed(msg.files, if StatusAfter(msg.kind).Completed? then FileCompleted else FilePending))
  }

  lemma AddsPhase(phases: seq<Phase>, msg: Message)
    requires msg.PhaseMessage? && FindName(phases, msg.name) < 0 && msg.name.Some? && msg.name.value != ""
    ensures Apply(phases, msg) == phases + [NewPhase(phases, msg)]
  {
  }

  lemma FollowFromNothing(phases: seq<Phase>, msg: Message)
    requires msg.PhaseMessage? && msg.name.Some? && msg.name.value != ""
    ensures var p := NewPhase(phases, msg);
            Follow(None, msg, msg.name.value) == Some(View(p.description, p.status, p.files))
  {
  }

  lemma ViewOfSnoc(phases: seq<Phase>, p: Phase, name: string)
    ensures ViewOf(phases + [p], name)
            == if ViewOf(phases, name).None? && p.name == name then Some(View(p.description, p.status, p.files))
               else ViewOf(phases, name)
  {
    FindNameSnoc(phases, p, Some(name));
  }

  lemma FollowPhaseMessage(phases: seq<Phase>, msg: Message, name: string)
    requires msg.PhaseMessage?
    ensures ViewOf(Apply(phases, msg), name) == Follow(ViewOf(phases, name), msg, name)
  {
    if FindName(phases, msg.name) >= 0 { FollowKnown(phases, msg, name); } else { FollowNew(phases, msg, name); }
  }

  lemma FollowFileStatus(phases: seq<Phase>, path: string, status: FileStatus, name: string)
    ensures ViewOf(SetFileStatus(phases, path, status), name) == WithStatus(ViewOf(phases, name), path, status)
  {
    var next := SetFileStatus(phases, path, status);
    FindNameByNames(phases, next, Some(name));
  }

  /** After any messages, each phase shows what its own messages and the file messages made of it:
      messages for other phases do not matter. */
  lemma {:induction false} PhaseFollowsItsMessages(phases: seq<Phase>, msgs: seq<Message>, name: string)
    ensures ViewOf(Run(phases, msgs).0, name) == FollowAll(ViewOf(phases, name), msgs, name)
  {
    if msgs != [] {
      var front, msg := msgs[..|msgs| - 1], msgs[|msgs| - 1];
      PhaseFollowsItsMessages(phases, front, name);
      var before := Run(phases, front).0;
      match msg {
        case PhaseMessage(_, _, _, _) => FollowPhaseMessage(before, msg, name);
        case FileStarted(path) => FollowFileStatus(before, path, FileGenerating, name);
        case FileDone(path) =>
          if path.Some? && path.value != "" { FollowFileStatus(before, path.value, FileCompleted, name); }
        case AgentConnected(_) =>
        case Unrelated =>
      }
    }
  }

  /** The last message about the phase since the agent connected, if any. */
  function LastKind(msgs: seq<Message>, name: string): Option<PhaseKind> {
    if msgs == [] then None
    else if msgs[|msgs| - 1].PhaseMessage? && msgs[|msgs| - 1].name == Some(name) then Some(msgs[|msgs| - 1].kind)
    else LastKind(msgs[..|msgs| - 1], name)
  }

  lemma {:induction false} FollowedStatus(view: Option<View>, msgs: seq<Message>, name: string)
    requires name != "" && forall msg | msg in msgs :: !msg.AgentConnected?
    ensures var last, after := LastKind(msgs, name), FollowAll(view, msgs, name);
            if last.None? then after.Some? == view.Some? && (view.Some? ==> after.value.status == view.value.status)
            else after.Some? && after.value.status == StatusAfter(last.value)
  {
    if msgs != [] {
      FollowedStatus(view, msgs[..|msgs| - 1], name);
    }
  }

  predicate IsCompleted(view: Option<View>) { view.Some? && view.value.status.Completed? }

  lemma FollowedCompletion(view: Option<View>, msgs: seq<Message>, name: string)
    requires name != "" && (forall msg | msg in msgs :: !msg.AgentConnected?)
    ensures var last := LastKind(msgs, name);
            IsCompleted(FollowAll(view, msgs, name)) <==> last == Some(PValidated) || (last.None? && IsCompleted(view))
  {
    FollowedStatus(view, msgs, name);
    var last := LastKind(msgs, name);
    assert last.Some? ==> (StatusAfter(last.value).Completed? <==> last.value.PValidated?);
  }

  /** Among phase and file messages, a phase is shown as completed exactly when the last message about it was
      `phase_validated`, or there was none and it was completed before. */
  lemma CompletedIffLastValidated(phases: seq<Phase>, msgs: seq<Message>, name: string)
    requires name != "" && (forall msg | msg in msgs :: !msg.AgentConnected?)
    ensures var last := LastKind(msgs, name);
            IsCompleted(ViewOf(Run(phases, msgs).0, name))
            <==> last == Some(PValidated) || (last.None? && IsCompleted(ViewOf(phases, name)))
  {
    PhaseFollowsItsMessages(phases, msgs, name);
    FollowedCompletion(ViewOf(phases, name), msgs, name);
  }

  predicate Shows(view: Option<View>, status: Status) { view.Some? && view.value.status == status }

  lemma FollowedShows(view: Option<View>, msgs: seq<Message>, name: string, status: Status)
    requires name != "" && (forall msg | msg in msgs :: !msg.AgentConnected?)
    ensures var last := LastKind(msgs, name);
            Shows(FollowAll(view, msgs, name), status)
            <==> if last.None? then Shows(view, status) else StatusAfter(last.value) == status
  {
    FollowedStatus(view, msgs, name);
  }

  /** Among phase and file messages, the status shown is decided by the last message about the phase: generating,
      implementing once it is generated or being implemented, validating once it is implemented or being validated;
      and without any message it stays as it was. */
  lemma StatusIsOfLastMessage(phases: seq<Phase>, msgs: seq<Message>, name: string)
    requires name != "" && (forall msg | msg in msgs :: !msg.AgentConnected?)
    ensures var before, after, last := ViewOf(phases, name), ViewOf(Run(phases, msgs).0, name), LastKind(msgs, name);
            && (Shows(after, Generating)
                <==> last == Some(PGenerating) || (last.None? && Shows(before, Generating)))
            && (Shows(after, Implementing)
                <==> last == Some(PGenerated) || last == Some(PImplementing)
                     || (last.None? && Shows(before, Implementing)))
            && (Shows(after, Validating)
                <==> last == Some(PImplemented) || last == Some(PValidating)
                     || (last.None? && Shows(before, Validating)))
            && (Shows(after, Pending) <==> last.None? && Shows(before, Pending))
            && (Shows(after, Cancelled) <==> last.None? && Shows(before, Cancelled))
  {
    var before := ViewOf(phases, name);
    PhaseFollowsItsMessages(phases, msgs, name);
    FollowedShows(before, msgs, name, Generating);
    FollowedShows(before, msgs, name, Implementing);
    FollowedShows(before, msgs, name, Validating);
    FollowedShows(before, msgs, name, Pending);
    FollowedShows(before, msgs, name, Cancelled);
  }

  /** A file message sets the status of exactly the files with its path, in every phase. */
  lemma FileMessageIs(phases: seq<Phase>, msg: Message, path: string, i: nat, j: nat)
    requires msg == FileStarted(path) || (msg == FileDone(Some(path)) && path != "")
    requires i < |phases| && j < |phases[i].files|
    ensures var next, file := Apply(phases, msg), phases[i].files[j];
            && |next| == |phases| && |next[i].files| == |phases[i].files|
            && next[i] == phases[i].(files := next[i].files)
            && next[i].files[j]
               == if file.path != path then file
                  else PhaseFile(path, file.purpose, if msg.FileStarted? then FileGenerating else FileCompleted)
  {
  }

  /** A phase message that lists files shows exactly these, completed with `phase_validated` and pending otherwise. */
  lemma ListedFilesAre(phases: seq<Phase>, msg: Message, name: string, j: nat)
    requires msg.PhaseMessage? && msg.name == Some(name) && name != "" && msg.files.Some? && j < |msg.files.value|
    ensures var after, listed := ViewOf(Apply(phases, msg), name), msg.files.value;
            && after.Some? && |after.value.files| == |listed|
            && after.value.files[j] == PhaseFile(listed[j].path, listed[j].purpose,
                                                 if msg.kind == PValidated then FileCompleted else FilePending)
  {
    FollowPhaseMessage(phases, msg, name);
    var status := if msg.kind.PValidated? then FileCompleted else FilePending;
    assert Listed(msg.files, status)[j].path == msg.files.value[j].path;
  }

  /** An agent without phases replaces the timeline by an empty one. */
  lemma SeedOfPlainAgent(state: AgentState)
    requires !state.phasic
    ensures Seed(state) == []
  {
  }

  /** What a replacement shows: completed phases and generated files as completed, the rest as under way or
      waiting while the agent generates, and as cancelled otherwise. */
  lemma SeedShows(state: AgentState, i: nat, j: nat)
    requires state.phasic && i < |state.phases| && j < |state.phases[i].files|
    ensures var phase, file, shown := state.phases[i], state.phases[i].files[j], Seed(state);
            && |shown| == |state.phases| && |shown[i].files| == |phase.files|
            && shown[i].id == PhaseId(i) && shown[i].name == phase.name && shown[i].description == phase.description
            && (shown[i].status == Completed <==> phase.completed)
            && (shown[i].status == Generating <==> !phase.completed && state.shouldBeGenerating)
            && (shown[i].status == Cancelled <==> !phase.completed && !state.shouldBeGenerating)
            && shown[i].files[j].path == file.path && shown[i].files[j].purpose == file.purpose
            && (shown[i].files[j].status == FileCompleted <==> file.path in state.generatedFiles)
            && (shown[i].files[j].status == FilePending
                <==> file.path !in state.generatedFiles && state.shouldBeGenerating)
            && (shown[i].files[j].status == FileCancelled
                <==> file.path !in state.generatedFiles && !state.shouldBeGenerating)
  {
  }

  ghost predicate AllDone(files: seq<PhaseFile>) { forall i | 0 <= i < |files| :: files[i].status.FileCompleted? }

  /** A completed phase can still show unfinished files: `phase_validated` completes the files of a
      known phase exactly when it lists some itself or they were all done before. */
  lemma ValidatedFilesDoneIff(phases: seq<Phase>, msg: Message, name: string)
    requires msg.PhaseMessage? && msg.kind.PValidated? && msg.name == Some(name) && ViewOf(phases, name).Some?
    ensures var after := ViewOf(Apply(phases, msg), name);
            && IsCompleted(after)
            && (AllDone(after.value.files)
                <==> (msg.files.Some? && msg.files.value != []) || AllDone(ViewOf(phases, name).value.files))
  {
    FollowPhaseMessage(phases, msg, name);
  }

  // ---------- what goes unreported ----------

  /** A phase is reported exactly when it is new or looks different, so a replacement that
      only renames phases goes unreported. */
  lemma {:induction false} SilentIffSameLooks(prev: seq<Phase>, next: seq<Phase>)
    requires WellFormed(prev) && WellFormed(next)
    ensures Diff(prev, next) == []
            <==> |next| <= |prev| && forall i | 0 <= i < |next| :: LookOf(prev[i]) == LookOf(next[i])
  {
    if next != [] {
      var k := |next| - 1;
      SilentIffSameLooks(prev, next[..k]);
      OneSilentIffSameLook(prev, next, k);
      assert Diff(prev, next) == [] <==> Diff(prev, next[..k]) == [] && DiffPhase(prev, next[k]) == [];
      SameLooksSnoc(prev, next);
    }
  }

  lemma OneSilentIffSameLook(prev: seq<Phase>, next: seq<Phase>, k: nat)
    requires WellFormed(prev) && WellFormed(next) && k < |next|
    ensures DiffPhase(prev, next[k]) == [] <==> k < |prev| && LookOf(prev[k]) == LookOf(next[k])
  {
    FindIdAt(prev, k);
  }

  lemma SameLooksSnoc(prev: seq<Phase>, next: seq<Phase>)
    requires next != []
    ensures var k := |next| - 1;
            (|next| <= |prev| && forall i | 0 <= i < |next| :: LookOf(prev[i]) == LookOf(next[i]))
            <==> (k <= |prev| && (forall i | 0 <= i < k :: LookOf(prev[i]) == LookOf(next[..k][i])))
                 && k < |prev| && LookOf(prev[k]) == LookOf(next[k])
  {
    var k := |next| - 1;
    assert forall i | 0 <= i < k :: next[..k][i] == next[i];
  }

  lemma RenameGoesUnreported(before: string, after: string)
    ensures var seed := (name: string) =>
              AgentConnected(AgentState(true, true, [GeneratedPhase(name, "", [], false)], {}));
            var phases := Apply([], seed(before));
            Names(Apply(phases, seed(after))) == [after] && Emits(phases, seed(after)) == []
  {
    var prev := Seed(AgentState(true, true, [GeneratedPhase(before, "", [], false)], {}));
    var next := Seed(AgentState(true, true, [GeneratedPhase(after, "", [], false)], {}));
    SameLookEmitsNothing(prev, next);
  }
}
