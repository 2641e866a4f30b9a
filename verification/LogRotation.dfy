/** Read-and-reset of the process log while appends keep arriving. Appends take no lock and
    are two file-system calls (open, then write); a reset renames the log to a unique
    temporary file, makes a new log, reads the temporary file and removes it. */
module LogRotation {
  import opened Common

  type Line = string

  /** The supervisor makes the new log exclusively; the command line tool truncates. */
  datatype Kind = Supervisor | Cli

  datatype Stage = Renamed | Made | Delivered(text: seq<Line>) | Failed

  /** One reset: the renamed file's content and how far the reset has come. */
  datatype Rotation = Rotation(kind: Kind, temp: seq<Line>, stage: Stage)
  {
    predicate Finished() { stage.Delivered? || stage.Failed? }

    /** What this reset has handed over or still will. */
    function Text(): seq<Line> {
      match stage
      case Delivered(text) => text
      case Failed => []
      case _ => temp
    }
  }

  /** The k-th log file ever made is `rotations[k]` once renamed, and `current` before that; an append
      handle keeps that number, whatever the file's name becomes. `appended` and `lost` are history:
      all lines written, and those no reset or later reader can ever return. */
  datatype State = State(
    current: Option<seq<Line>>,
    rotations: seq<Rotation>,
    handles: map<nat, nat>,
    appended: seq<Line>,
    lost: multiset<Line>)

  datatype Event =
    | Open(writer: nat)
    | Write(writer: nat, line: Line)
    | Rename(kind: Kind)
    | Make(r: nat)
    | MakeError(r: nat)
    | Read(r: nat)
    | ReadError(r: nat)

  function Init(): State { State(None, [], map[], [], multiset{}) }

  predicate Enabled(s: State, e: Event) {
    match e
    case Open(w) => w !in s.handles
    case Write(w, _) => w in s.handles
    case Rename(_) => true
    case Make(r) => r < |s.rotations| && s.rotations[r].stage.Renamed?
    case MakeError(r) => r < |s.rotations| && s.rotations[r].stage.Renamed?
    case Read(r) => r < |s.rotations| && s.rotations[r].stage.Made?
    case ReadError(r) => r < |s.rotations| && s.rotations[r].stage.Made?
  }

  function Content(file: Option<seq<Line>>): seq<Line> {
    if file.Some? then file.value else []
  }

  function SetStage(s: State, r: nat, stage: Stage): State
    requires r < |s.rotations|
  {
    s.(rotations := s.rotations[r := s.rotations[r].(stage := stage)])
  }

  function Next(s: State, e: Event): State
    requires Enabled(s, e)
  {
    match e
    case Open(w) => s.(current := Some(Content(s.current)), handles := s.handles[w := |s.rotations|])
    case Write(w, line) =>
      WriteLine(s.(handles := s.handles - {w}, appended := s.appended + [line]), s.handles[w], line)
    case Rename(kind) =>
      if s.current.None? then s  // nothing logged yet: the reset returns the empty text
      else s.(current := None, rotations := s.rotations + [Rotation(kind, s.current.value, Renamed)])
    case Make(r) =>
      var t := SetStage(s, r, Made);
      if s.rotations[r].kind.Supervisor? then t.(current := Some(Content(s.current)))
      else t.(current := Some([]), lost := s.lost + multiset(Content(s.current)))
    case MakeError(r) => SetStage(s, r, Made)
    case Read(r) => SetStage(s, r, Delivered(s.rotations[r].temp))
    case ReadError(r) => SetStage(s, r, Failed).(lost := s.lost + multiset(s.rotations[r].temp))
  }

  /** A line lands in the file the handle was opened on: the log, a renamed log
      still to be read, or one already read and removed. */
  function WriteLine(s: State, file: nat, line: Line): State {
    if file < |s.rotations| then
      var rotation := s.rotations[file];
      if rotation.Finished() then s.(lost := s.lost + multiset{line})
      else s.(rotations := s.rotations[file := rotation.(temp := rotation.temp + [line])])
    else s.(current := Some(Content(s.current) + [line]))
  }

  ghost predicate Run(s: State, es: seq<Event>, t: State)
    decreases es
  {
    if es == [] then s == t else Enabled(s, es[0]) && Run(Next(s, es[0]), es[1..], t)
  }

  /** The texts of all resets in rename order. */
  function Texts(rotations: seq<Rotation>): seq<Line> {
    if rotations == [] then []
    else Texts(rotations[..|rotations| - 1]) + rotations[|rotations| - 1].Text()
  }

  /** Everything handed out or still to be handed out, oldest reset first, the current log last. */
  function Held(s: State): seq<Line> { Texts(s.rotations) + Content(s.current) }

  /** A line that arrives between the rename and the new log survives the supervisor's reset; the command line tool's
      truncates it away. */
  lemma ResetDuringAppend(s: State, w: nat, kind: Kind, line: Line) returns (t: State)
    requires s.current.Some? && w !in s.handles
    ensures Run(s, [Rename(kind), Open(w), Write(w, line), Make(|s.rotations|)], t)
    ensures kind == Supervisor ==> t.current == Some([line]) && t.lost == s.lost
    ensures kind == Cli ==> t.current == Some([]) && t.lost == s.lost + multiset{line}
    ensures |t.rotations| == |s.rotations| + 1 && t.rotations[|s.rotations|].temp == s.current.value
  {
    var s1 := Next(s, Rename(kind));
    var s2 := Next(s1, Open(w));
    var s3 := Next(s2, Write(w, line));
    assert s3.current == Some([line]) by { assert [] + [line] == [line]; }
    t := Next(s3, Make(|s.rotations|));
    assert multiset([line]) == multiset{line};
    var make := Make(|s.rotations|);
    assert Run(t, [], t);
    Cons(s3, make, [], t);
    Cons(s2, Write(w, line), [make], t);
    Cons(s1, Open(w), [Write(w, line), make], t);
    Cons(s, Rename(kind), [Open(w), Write(w, line), make], t);
    assert [make] + [] == [make] && [Write(w, line)] + [make] == [Write(w, line), make];
    assert [Open(w)] + [Write(w, line), make] == [Open(w), Write(w, line), make];
    assert [Rename(kind)] + [Open(w), Write(w, line), make] == [Rename(kind), Open(w), Write(w, line), make];
  }

  // ---------- what each step does to the texts ----------

  lemma {:induction false} TextsSplit(rotations: seq<Rotation>, r: nat)
    requires r < |rotations|
    ensures Texts(rotations) == Texts(rotations[..r]) + rotations[r].Text() + TextsFrom(rotations, r + 1)
  {
    var n := |rotations| - 1;
    if r < n {
      var front := rotations[..n];
      TextsSplit(front, r);
      assert front[..r] == rotations[..r];
      TextsFromFront(rotations, r + 1);
      Regroup(Texts(rotations[..r]), rotations[r].Text(), TextsFrom(front, r + 1), rotations[n].Text());
    } else {
      assert TextsFrom(rotations, r + 1) == [];
    }
  }

  lemma Regroup(a: seq<Line>, b: seq<Line>, c: seq<Line>, d: seq<Line>)
    ensures a + b + c + d == a + b + (c + d)
  {
  }

  function TextsFrom(rotations: seq<Rotation>, from: nat): seq<Line>
    requires from <= |rotations|
    decreases |rotations| - from
  {
    if from == |rotations| then [] else rotations[from].Text() + TextsFrom(rotations, from + 1)
  }

  lemma {:induction false} TextsFromFront(rotations: seq<Rotation>, from: nat)
    requires from < |rotations|
    ensures TextsFrom(rotations, from)
         == TextsFrom(rotations[..|rotations| - 1], from) + rotations[|rotations| - 1].Text()
    decreases |rotations| - from
  {
    if from + 1 < |rotations| {
      TextsFromFront(rotations, from + 1);
    }
  }

  /** Replacing one reset's text replaces exactly that part. */
  lemma {:induction false} TextsUpdate(rotations: seq<Rotation>, r: nat, rotation: Rotation)
    requires r < |rotations|
    ensures Texts(rotations[r := rotation]) == Texts(rotations[..r]) + rotation.Text() + TextsFrom(rotations, r + 1)
  {
    var updated := rotations[r := rotation];
    TextsSplit(updated, r);
    assert updated[..r] == rotations[..r];
    TextsFromSame(rotations, updated, r + 1);
  }

  lemma {:induction false} TextsFromSame(a: seq<Rotation>, b: seq<Rotation>, from: nat)
    requires |a| == |b| && from <= |a| && a[from..] == b[from..]
    ensures TextsFrom(a, from) == TextsFrom(b, from)
    decreases |a| - from
  {
    if from < |a| {
      assert a[from] == a[from..][0] == b[from..][0] == b[from];
      assert a[from + 1..] == a[from..][1..] == b[from..][1..] == b[from + 1..];
      TextsFromSame(a, b, from + 1);
    }
  }

  /** A reset that only moves on to its next stage keeps its text. */
  lemma {:induction false} SameText(s: State, r: nat, stage: Stage)
    requires r < |s.rotations| && s.rotations[r].(stage := stage).Text() == s.rotations[r].Text()
    ensures Texts(SetStage(s, r, stage).rotations) == Texts(s.rotations)
  {
    TextsUpdate(s.rotations, r, s.rotations[r].(stage := stage));
    TextsSplit(s.rotations, r);
  }

  // ---------- nothing is lost or doubled unless a step loses it ----------

  ghost predicate Inv(s: State) {
    && (forall w | w in s.handles :: s.handles[w] <= |s.rotations|)
    && multiset(s.appended) == multiset(Texts(s.rotations)) + multiset(Content(s.current)) + s.lost
  }

  /** The three ways a step can lose lines: the command line tool truncates a log that appends have
      already recreated, a renamed log cannot be read back, or a write reaches a file already read. */
  predicate Loses(s: State, e: Event)
    requires Enabled(s, e)
  {
    match e
    case Make(r) => s.rotations[r].kind.Cli? && Content(s.current) != []
    case ReadError(r) => s.rotations[r].temp != []
    case Write(w, _) => s.handles[w] < |s.rotations| && s.rotations[s.handles[w]].Finished()
    case _ => false
  }

  /** A line written to a renamed file joins exactly that reset's text. */
  lemma {:induction false} TextsGrow(rotations: seq<Rotation>, r: nat, line: Line)
    requires r < |rotations| && !rotations[r].Finished()
    ensures var longer := rotations[r].(temp := rotations[r].temp + [line]);
            multiset(Texts(rotations[r := longer])) == multiset(Texts(rotations)) + multiset{line}
  {
    var longer := rotations[r].(temp := rotations[r].temp + [line]);
    TextsSplit(rotations, r);
    TextsUpdate(rotations, r, longer);
    Insert(Texts(rotations[..r]) + rotations[r].temp, line, TextsFrom(rotations, r + 1));
  }

  lemma Insert(a: seq<Line>, line: Line, b: seq<Line>)
    ensures a + [line] + b == a + ([line] + b)
    ensures multiset(a + [line] + b) == multiset(a + b) + multiset{line}
  {
  }

  /** A text that cannot be read back leaves the rest in place. */
  lemma {:induction false} TextsFail(rotations: seq<Rotation>, r: nat)
    requires r < |rotations|
    ensures multiset(Texts(rotations))
         == multiset(Texts(rotations[r := rotations[r].(stage := Failed)])) + multiset(rotations[r].Text())
  {
    TextsSplit(rotations, r);
    TextsUpdate(rotations, r, rotations[r].(stage := Failed));
  }

  lemma {:induction false} WriteKeepsInv(s: State, w: nat, line: Line)
    requires Inv(s) && w in s.handles
    ensures Inv(Next(s, Write(w, line)))
    ensures Next(s, Write(w, line)).lost == s.lost + if Loses(s, Write(w, line)) then multiset{line} else multiset{}
  {
    var file, t := s.handles[w], Next(s, Write(w, line));
    assert multiset(s.appended + [line]) == multiset(s.appended) + multiset{line};
    if file >= |s.rotations| {
      assert multiset(Content(t.current)) == multiset(Content(s.current)) + multiset{line};
      assert t.rotations == s.rotations && t.lost == s.lost;
    } else if s.rotations[file].Finished() {
      assert t.lost == s.lost + multiset{line} && t.rotations == s.rotations && t.current == s.current;
    } else {
      TextsGrow(s.rotations, file, line);
      assert t.lost == s.lost && t.current == s.current;
    }
  }

  lemma {:induction false} RenameKeepsInv(s: State, kind: Kind)
    requires Inv(s)
    ensures Inv(Next(s, Rename(kind))) && Next(s, Rename(kind)).lost == s.lost
  {
    if s.current.Some? {
      var t := Next(s, Rename(kind));
      assert t.rotations[..|t.rotations| - 1] == s.rotations;
      assert Texts(t.rotations) == Texts(s.rotations) + s.current.value;
    }
  }

  lemma {:induction false} MakeKeepsInv(s: State, r: nat)
    requires Inv(s) && Enabled(s, Make(r))
    ensures Inv(Next(s, Make(r)))
    ensures s.lost <= Next(s, Make(r)).lost
    ensures Loses(s, Make(r)) <==> Next(s, Make(r)).lost != s.lost
  {
    SameText(s, r, Made);
    LoseAll(s.lost, Content(s.current));
    var t := Next(s, Make(r));
    assert Texts(t.rotations) == Texts(s.rotations);
    if s.rotations[r].kind.Supervisor? {
      assert Content(t.current) == Content(s.current) && t.lost == s.lost;
    } else {
      assert Content(t.current) == [] && t.lost == s.lost + multiset(Content(s.current));
    }
  }

  lemma {:induction false} ReadErrorKeepsInv(s: State, r: nat)
    requires Inv(s) && Enabled(s, ReadError(r))
    ensures Inv(Next(s, ReadError(r)))
    ensures s.lost <= Next(s, ReadError(r)).lost
    ensures Loses(s, ReadError(r)) <==> Next(s, ReadError(r)).lost != s.lost
  {
    TextsFail(s.rotations, r);
    LoseAll(s.lost, s.rotations[r].temp);
  }

  lemma {:induction false} StepKeepsInv(s: State, e: Event)
    requires Inv(s) && Enabled(s, e)
    ensures Inv(Next(s, e))
    ensures s.lost <= Next(s, e).lost
    ensures Loses(s, e) <==> Next(s, e).lost != s.lost
  {
    match e
    case Open(w) =>
    case Write(w, line) => WriteKeepsInv(s, w, line);
    case Rename(kind) => RenameKeepsInv(s, kind);
    case Make(r) => MakeKeepsInv(s, r);
    case MakeError(r) => SameText(s, r, Made);
    case Read(r) => SameText(s, r, Delivered(s.rotations[r].temp));
    case ReadError(r) => ReadErrorKeepsInv(s, r);
  }

  lemma LoseAll(lost: multiset<Line>, lines: seq<Line>)
    ensures lost + multiset(lines) == lost <==> lines == []
  {
    assert |lost + multiset(lines)| == |lost| + |lines|;
  }

  /** Some step of the run loses a line. */
  ghost predicate LosesSomewhere(s: State, es: seq<Event>)
    decreases es
  {
    es != [] && Enabled(s, es[0]) && (Loses(s, es[0]) || LosesSomewhere(Next(s, es[0]), es[1..]))
  }

  lemma {:induction false} RunLedger(s: State, es: seq<Event>, t: State)
    requires Inv(s) && Run(s, es, t)
    ensures Inv(t) && s.lost <= t.lost
    ensures t.lost != s.lost <==> LosesSomewhere(s, es)
    decreases es
  {
    if es != [] {
      StepKeepsInv(s, es[0]);
      RunLedger(Next(s, es[0]), es[1..], t);
    }
  }

  /** On every run, under any interleaving of any number of appends and resets: every line written is
      returned by exactly one reset, waits in a renamed file, or is in the current log, if and only if
      no step truncates a recreated log, fails to read a renamed one, or writes to one already read. */
  lemma {:induction false} ConservesIffNoLossyStep(es: seq<Event>, t: State)
    requires Run(Init(), es, t)
    ensures multiset(t.appended) == multiset(Held(t)) <==> !LosesSomewhere(Init(), es)
  {
    assert Held(Init()) == [];
    RunLedger(Init(), es, t);
    assert multiset(Held(t)) == multiset(Texts(t.rotations)) + multiset(Content(t.current));
    assert multiset(t.appended) == multiset(Held(t)) ==> |t.lost| == 0;
  }

  // ---------- order, when each append is one atomic step ----------

  /** Whole appends, so that no reset falls between an append's open and its write. */
  datatype Op = Append(writer: nat, line: Line) | Reset(step: Event)

  function Expand(ops: seq<Op>): seq<Event> {
    if ops == [] then []
    else (match ops[0]
          case Append(w, line) => [Open(w), Write(w, line)]
          case Reset(e) => [e]) + Expand(ops[1..])
  }

  ghost predicate Ordered(s: State) {
    s.handles == map[] && s.appended == Held(s)
  }

  predicate ResetStep(e: Event) { !e.Open? && !e.Write? }

  lemma {:induction false} ResetStepKeepsOrder(s: State, e: Event)
    requires Ordered(s) && ResetStep(e) && Enabled(s, e) && !Loses(s, e)
    ensures Ordered(Next(s, e))
  {
    var t := Next(s, e);
    match e {
      case Rename(kind) =>
        if s.current.Some? {
          assert t.rotations[..|t.rotations| - 1] == s.rotations;
        }
      case Make(r) => SameText(s, r, Made);
      case MakeError(r) => SameText(s, r, Made);
      case Read(r) => SameText(s, r, Delivered(s.rotations[r].temp));
      case ReadError(r) => SameText(s, r, Failed);
    }
  }

  lemma {:induction false} OpsKeepOrder(s: State, ops: seq<Op>, t: State)
    requires forall op | op in ops && op.Reset? :: ResetStep(op.step)
    requires Ordered(s) && Run(s, Expand(ops), t) && !LosesSomewhere(s, Expand(ops))
    ensures Ordered(t)
    decreases ops
  {
    if ops != [] {
      var es := Expand(ops);
      match ops[0] {
        case Append(w, line) =>
          var mid := Next(s, Open(w));
          assert es[0] == Open(w) && es[1..][0] == Write(w, line) && es[1..][1..] == Expand(ops[1..]);
          assert mid.handles - {w} == map[];
          OpsKeepOrder(Next(mid, Write(w, line)), ops[1..], t);
        case Reset(e) =>
          assert es[0] == e && es[1..] == Expand(ops[1..]);
          ResetStepKeepsOrder(s, e);
          OpsKeepOrder(Next(s, e), ops[1..], t);
      }
    }
  }

  /** With atomic appends and any number of overlapping resets of either kind, the texts in rename order
      followed by the current log are all appended lines in order, if and only if no step loses a line. */
  lemma {:induction false} AtomicAppendsKeepOrderIffNoLossyStep(ops: seq<Op>, t: State)
    requires forall op | op in ops && op.Reset? :: ResetStep(op.step)
    requires Run(Init(), Expand(ops), t)
    ensures Texts(t.rotations) + Content(t.current) == t.appended <==> !LosesSomewhere(Init(), Expand(ops))
  {
    assert Held(Init()) == [];
    ConservesIffNoLossyStep(Expand(ops), t);
    if !LosesSomewhere(Init(), Expand(ops)) {
      OpsKeepOrder(Init(), ops, t);
    }
  }

  /** Only the supervisor resets, and its reads succeed. */
  predicate SupervisorOp(op: Op) {
    op.Append? || op.step == Rename(Supervisor) || op.step.Make? || op.step.MakeError? || op.step.Read?
  }

  /** The supervisor's own resets never lose a line that was appended atomically. */
  lemma {:induction false} SupervisorResetsKeepEveryLineInOrder(ops: seq<Op>, t: State)
    requires forall op | op in ops :: SupervisorOp(op)
    requires Run(Init(), Expand(ops), t)
    ensures Texts(t.rotations) + Content(t.current) == t.appended
  {
    SupervisorOpsLoseNothing(Init(), ops, t);
    AtomicAppendsKeepOrderIffNoLossyStep(ops, t);
  }

  lemma {:induction false} SupervisorOpsLoseNothing(s: State, ops: seq<Op>, t: State)
    requires s.handles == map[] && forall r | 0 <= r < |s.rotations| :: s.rotations[r].kind.Supervisor?
    requires forall op | op in ops :: SupervisorOp(op)
    requires Run(s, Expand(ops), t)
    ensures !LosesSomewhere(s, Expand(ops))
    decreases ops
  {
    if ops != [] {
      var es := Expand(ops);
      assert SupervisorOp(ops[0]);
      match ops[0] {
        case Append(w, line) =>
          var mid := Next(s, Open(w));
          assert es[0] == Open(w) && es[1..][0] == Write(w, line) && es[1..][1..] == Expand(ops[1..]);
          assert mid.handles - {w} == map[];
          SupervisorOpsLoseNothing(Next(mid, Write(w, line)), ops[1..], t);
        case Reset(e) =>
          assert es[0] == e && es[1..] == Expand(ops[1..]);
          SupervisorOpsLoseNothing(Next(s, e), ops[1..], t);
      }
    }
  }

  /** Without atomicity the supervisor's reset does lose a line: an append opened
      before the rename and written after the read goes to a removed file. */
  lemma {:induction false} SplitAppendIsLost(line: Line)
    ensures var es := [Open(0), Rename(Supervisor), Make(0), Read(0), Write(0, line)];
            exists t :: Run(Init(), es, t) && Held(t) == [] && t.appended == [line]
  {
    var es := [Open(0), Rename(Supervisor), Make(0), Read(0), Write(0, line)];
    var s1 := State(Some([]), [], map[0 := 0], [], multiset{});
    var s2 := State(None, [Rotation(Supervisor, [], Renamed)], map[0 := 0], [], multiset{});
    var s3 := State(Some([]), [Rotation(Supervisor, [], Made)], map[0 := 0], [], multiset{});
    var s4 := State(Some([]), [Rotation(Supervisor, [], Delivered([]))], map[0 := 0], [], multiset{});
    var s5 := State(Some([]), [Rotation(Supervisor, [], Delivered([]))], map[], [line], multiset{line});
    assert Next(s4, Write(0, line)) == s5 by { assert map[0 := 0] - {0} == map[]; }
    assert Run(s5, [], s5) && Run(s4, [Write(0, line)], s5);
    Cons(s3, Read(0), [Write(0, line)], s5);
    Cons(s2, Make(0), [Read(0), Write(0, line)], s5);
    assert Next(s1, Rename(Supervisor)) == s2;
    Cons(s1, Rename(Supervisor), [Make(0), Read(0), Write(0, line)], s5);
    Cons(Init(), Open(0), [Rename(Supervisor), Make(0), Read(0), Write(0, line)], s5);
    assert es == [Open(0)] + [Rename(Supervisor), Make(0), Read(0), Write(0, line)];
    assert Held(s5) == [];
  }

  lemma Cons(s: State, e: Event, es: seq<Event>, t: State)
    requires Enabled(s, e) && Run(Next(s, e), es, t)
    ensures Run(s, [e] + es, t)
  {
    assert ([e] + es)[1..] == es;
  }
}
