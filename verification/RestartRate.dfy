/** How often the supervisor restarts its child: the rate bound, exactly when it holds, and runs
    that nothing disturbs. */
module RestartRate {
  import opened Common
  import opened Lifecycle

  // ---------- starts pending at once ----------

  /** The starts between their call and their spawn. */
  function Pending(starts: seq<StartPc>): nat {
    if starts == [] then 0 else Pending(starts[..|starts| - 1]) + if Unfinished(starts[|starts| - 1]) then 1 else 0
  }

  /** A run on which no more than `k` starts are ever pending at once. */
  ghost predicate RunWithin(s: State, es: seq<Event>, t: State, k: nat)
    decreases es
  {
    && Pending(s.starts) <= k
    && if es == [] then s == t else Enabled(s, es[0]) && RunWithin(Next(s, es[0]), es[1..], t, k)
  }

  ghost predicate OneStartAtATime(s: State) {
    forall i, j |
      0 <= i < |s.starts| && 0 <= j < |s.starts| && Unfinished(s.starts[i]) && Unfinished(s.starts[j]) :: i == j
  }

  lemma {:induction false} NonePending(starts: seq<StartPc>)
    requires Pending(starts) == 0
    ensures forall i | 0 <= i < |starts| :: !Unfinished(starts[i])
  {
    if starts != [] {
      NonePending(starts[..|starts| - 1]);
    }
  }

  lemma {:induction false} OnePending(starts: seq<StartPc>)
    requires Pending(starts) <= 1
    ensures forall i, j |
              0 <= i < |starts| && 0 <= j < |starts| && Unfinished(starts[i]) && Unfinished(starts[j]) :: i == j
  {
    if starts != [] {
      var front := starts[..|starts| - 1];
      OnePending(front);
      if Unfinished(starts[|starts| - 1]) { NonePending(front); }
    }
  }

  /** `resets` stable runs have each given the whole budget back; they are disjoint and ended by `anchor`. */
  ghost predicate RateInv(s: State, resets: nat, anchor: int) {
    && resets * STABILITY_THRESHOLD_MS <= anchor <= s.now
    && s.m.scheduled <= Budget(s.m.options) * resets + s.m.restartCount
    && (s.m.lastStart.Some? ==> s.m.lastStart.value <= s.now)
    && (s.m.endTime.Some? ==> s.m.endTime.value <= s.now)
    && (s.m.restartCount > 0 || s.m.phase.Running? ==> s.m.lastStart.Some? && s.m.lastStart.value >= anchor)
    && (forall i | 0 <= i < |s.starts| && s.starts[i].Resetting? :: WasStable(s.m))
    && (forall i | 0 <= i < |s.starts| && Unfinished(s.starts[i]) :: !s.m.phase.Running?)
  }

  lemma {:induction false} CallKeepsRate(s: State, resets: nat, anchor: int)
    requires RateInv(s, resets, anchor)
    ensures RateInv(Call(s), resets, anchor)
  {
  }

  lemma {:induction false} SpawnKeepsRate(s: State, i: nat, ok: bool, resets: nat, anchor: int)
    requires RateInv(s, resets, anchor) && i < |s.starts| && s.starts[i].Logging? && OneStartAtATime(s)
    ensures RateInv(Next(s, StartGoesOn(i, ok)), resets, anchor)
  {
  }

  lemma {:induction false} ExitKeepsRate(s: State, code: Option<int>, signal: bool, resets: nat, anchor: int)
    requires Inv(s) && RateInv(s, resets, anchor) && s.children > 0
    ensures RateInv(Next(s, Exit(code, signal)), resets, anchor)
  {
    var t := Next(s, Exit(code, signal));
    ExitIsCrashOrStop(s, code, signal);
    assert t.m.endTime == Some(s.now) && t.m.lastStart == s.m.lastStart && t.starts == s.starts && t.now == s.now;
  }

  predicate StopEvent(e: Event) {
    e.StopCall? || e.StopEnters? || e.CancelLogged? || e.KillResolves? || e.StopReported?
  }

  lemma {:induction false} StopKeepsRate(s: State, e: Event, resets: nat, anchor: int)
    requires RateInv(s, resets, anchor) && Enabled(s, e) && StopEvent(e)
    ensures RateInv(Next(s, e), resets, anchor)
  {
    var t := Next(s, e);
    assert t.starts == s.starts && t.now == s.now && t.m.scheduled == s.m.scheduled
        && t.m.restartCount == s.m.restartCount;
    assert t.m.lastStart == s.m.lastStart && t.m.endTime == s.m.endTime && t.m.options == s.m.options;
    assert t.m.phase.Running? ==> s.m.phase.Running?;
  }

  lemma {:induction false} OtherKeepsRate(s: State, e: Event, resets: nat, anchor: int)
    requires RateInv(s, resets, anchor) && Enabled(s, e)
    requires e.Tick? || e.StartFails? || e.StartAnnounced? || e.ChildError? || e.Output? || e.RestartFires?
    ensures RateInv(Next(s, e), resets, anchor)
  {
    var t := Next(s, e);
    assert t.m.scheduled == s.m.scheduled && t.m.restartCount == s.m.restartCount && t.m.options == s.m.options;
    assert t.m.lastStart == s.m.lastStart && t.m.endTime == s.m.endTime && t.now >= s.now;
    assert t.m.phase.Running? ==> s.m.phase.Running?;
    assert |t.starts| == |s.starts|;
    forall k | 0 <= k < |t.starts| ensures Unfinished(t.starts[k]) ==> t.starts[k] == s.starts[k] {}
  }

  lemma {:induction false} StepKeepsRate(s: State, e: Event, resets: nat, anchor: int)
    requires Inv(s) && RateInv(s, resets, anchor) && Enabled(s, e) && !e.ResetDone? && OneStartAtATime(s)
    ensures RateInv(Next(s, e), resets, anchor)
  {
    match e {
      case StartCall => CallKeepsRate(s, resets, anchor);
      case RestartStarts => CallKeepsRate(s.(callbacks := s.callbacks - 1), resets, anchor);
      case StartGoesOn(i, ok) => SpawnKeepsRate(s, i, ok, resets, anchor);
      case Exit(code, signal) => ExitKeepsRate(s, code, signal, resets, anchor);
      case _ => if StopEvent(e) { StopKeepsRate(s, e, resets, anchor); } else { OtherKeepsRate(s, e, resets, anchor); }
    }
  }

  lemma {:induction false} ResetKeepsRate(s: State, i: nat, ok: bool, resets: nat, anchor: int)
    returns (resets': nat, anchor': int)
    requires Inv(s) && RateInv(s, resets, anchor) && Enabled(s, ResetDone(i, ok))
    requires OneStartAtATime(s)
    ensures RateInv(Next(s, ResetDone(i, ok)), resets', anchor')
  {
    resets', anchor' := resets, anchor;
    assert WasStable(s.m);
    if s.m.restartCount > 0 {
      resets', anchor' := resets + 1, s.m.endTime.value;
      BudgetStep(Budget(s.m.options), resets);
    }
  }

  lemma BudgetStep(budget: nat, resets: nat)
    ensures budget * (resets + 1) == budget * resets + budget
  {
  }

  lemma {:induction false} RunKeepsRate(s: State, es: seq<Event>, t: State, resets: nat, anchor: int)
    returns (resets': nat, anchor': int)
    requires Inv(s) && RateInv(s, resets, anchor) && RunWithin(s, es, t, 1)
    ensures Inv(t) && RateInv(t, resets', anchor') && t.m.options == s.m.options
    decreases es
  {
    resets', anchor' := resets, anchor;
    if es != [] {
      OnePending(s.starts);
      StepKeepsInv(s, es[0]);
      if es[0].ResetDone? {
        resets', anchor' := ResetKeepsRate(s, es[0].i, es[0].ok, resets, anchor);
      } else {
        StepKeepsRate(s, es[0], resets, anchor);
      }
      resets', anchor' := RunKeepsRate(Next(s, es[0]), es[1..], t, resets', anchor');
    }
  }

  ghost predicate WithinRate(t: State) {
    t.m.scheduled <= Budget(t.m.options) * (1 + t.now / 300000)
  }

  /** When no two starts overlap, at most `maxRestarts` restarts are scheduled per five
      minutes begun since construction: the budget only comes back after a longer run. */
  lemma {:induction false} RestartRateBound(options: Options, es: seq<Event>, t: State)
    requires RunWithin(InitState(options), es, t, 1)
    ensures t.m.options == options && WithinRate(t)
  {
    var resets, anchor := RunKeepsRate(InitState(options), es, t, 0, 0);
    assert resets <= t.now / STABILITY_THRESHOLD_MS;
    BudgetStep(Budget(options), resets);
    MulMono(Budget(options), 1 + resets, 1 + t.now / STABILITY_THRESHOLD_MS);
  }

  /** The count is reset only after an awaited log entry. With one start at a time the run judged stable
      before it is still the last run, and still stable, when the reset happens. */
  lemma {:induction false} ResetIsStillJustified(options: Options, es: seq<Event>, t: State, i: nat)
    requires RunWithin(InitState(options), es, t, 1) && i < |t.starts| && t.starts[i].Resetting?
    ensures WasStable(t.m)
  {
    var resets, anchor := RunKeepsRate(InitState(options), es, t, 0, 0);
  }

  lemma MulMono(a: nat, b: nat, c: nat)
    requires b <= c
    ensures a * b <= a * c
  {
  }

  lemma {:induction false} Advance(
    s: State, es: seq<Event>, t: State, e: Event, k: nat) returns (longer: seq<Event>, u: State)
    requires RunWithin(s, es, t, k) && Enabled(t, e) && Pending(Next(t, e).starts) <= k
    ensures u == Next(t, e) && RunWithin(s, longer, u, k)
    decreases es
  {
    longer, u := es + [e], Next(t, e);
    if es != [] {
      var rest, _ := Advance(Next(s, es[0]), es[1..], t, e, k);
      RunFromFirst(s, es[0], rest, u, k);
      longer := [es[0]] + rest;
    } else {
      RunFromFirst(s, e, [], u, k);
      longer := [e];
    }
  }

  lemma RunFromFirst(s: State, e: Event, es: seq<Event>, t: State, k: nat)
    requires Pending(s.starts) <= k && Enabled(s, e) && RunWithin(Next(s, e), es, t, k)
    ensures RunWithin(s, [e] + es, t, k)
  {
    assert ([e] + es)[1..] == es;
  }

  lemma {:induction false} Join(
    s: State, es: seq<Event>, t: State, fs: seq<Event>, u: State, k: nat) returns (gs: seq<Event>)
    requires RunWithin(s, es, t, k) && RunWithin(t, fs, u, k)
    ensures RunWithin(s, gs, u, k)
    decreases es
  {
    if es == [] {
      gs := fs;
    } else {
      var rest := Join(Next(s, es[0]), es[1..], t, fs, u, k);
      RunFromFirst(s, es[0], rest, u, k);
      gs := [es[0]] + rest;
    }
  }

  lemma PendingSnoc(starts: seq<StartPc>, pc: StartPc)
    ensures Pending(starts + [pc]) == Pending(starts) + if Unfinished(pc) then 1 else 0
  {
    assert (starts + [pc])[..|starts|] == starts;
  }

  lemma {:induction false} PendingUpdate(starts: seq<StartPc>, i: nat, pc: StartPc)
    requires i < |starts|
    ensures Pending(starts[i := pc])
            == Pending(starts) - (if Unfinished(starts[i]) then 1 else 0) + (if Unfinished(pc) then 1 else 0)
  {
    var n := |starts| - 1;
    if i == n {
      assert starts[i := pc][..n] == starts[..n];
    } else {
      assert starts[i := pc][..n] == starts[..n][i := pc];
      PendingUpdate(starts[..n], i, pc);
    }
  }

  /** A child started this very millisecond runs, and no restart callback is under way. */
  ghost predicate Ready(s: State) {
    && s.m.options.autoRestart && s.m.phase.Running? && s.children > 0 && s.callbacks == 0
    && s.m.lastStart == Some(s.now)
  }

  /** `t` has scheduled and counted `n` restarts more than `s`; the starts of `s` are where they were. */
  ghost predicate Later(s: State, t: State, n: nat) {
    && t.now == s.now && t.children == s.children && t.m.options == s.m.options
    && t.m.restartCount == s.m.restartCount + n && t.m.scheduled == s.m.scheduled + n
    && s.starts <= t.starts && Pending(t.starts) == Pending(s.starts)
  }

  /** A start() judging the last run unstable, or none, spawns a child at once. */
  lemma {:induction false} StartAndSpawn(s: State, k: nat) returns (es: seq<Event>, t: State)
    requires CanStart(s.m) && !WasStable(s.m) && Pending(s.starts) + 1 <= k
    ensures RunWithin(s, es, t, k) && t.starts == s.starts + [Announcing] && Pending(t.starts) == Pending(s.starts)
    ensures t.m.phase.Running? && t.m.lastStart == Some(s.now) && t.m.endTime.None?
    ensures t.now == s.now && t.children == s.children + 1
    ensures t.m.options == s.m.options && t.m.restartCount == s.m.restartCount && t.m.scheduled == s.m.scheduled
    ensures t.callbacks == s.callbacks
  {
    var called := Next(s, StartCall);
    assert called == s.(m := s.m.(phase := Starting), starts := s.starts + [Logging]);
    PendingSnoc(s.starts, Logging);
    PendingSnoc(s.starts, Announcing);
    es, called := Advance(s, [], s, StartCall, k);
    t := SpawnLast(called, s.starts);
    es, t := Advance(s, es, called, StartGoesOn(|s.starts|, true), k);
  }

  lemma SpawnLast(s: State, before: seq<StartPc>) returns (t: State)
    requires s.starts == before + [Logging] && !WasStable(s.m)
    ensures Enabled(s, StartGoesOn(|before|, true)) && t == Next(s, StartGoesOn(|before|, true))
    ensures t.starts == before + [Announcing]
    ensures t.m.phase.Running? && t.m.lastStart == Some(s.now) && t.m.endTime.None?
    ensures t.now == s.now && t.children == s.children + 1 && t.callbacks == s.callbacks
    ensures t.m.options == s.m.options && t.m.restartCount == s.m.restartCount && t.m.scheduled == s.m.scheduled
  {
    t := Next(s, StartGoesOn(|before|, true));
    assert t.starts == (before + [Logging])[|before| := Announcing];
  }

  /** A crash with budget left schedules a restart, whatever its delay. */
  lemma CrashSchedules(s: State) returns (a: State)
    requires Ready(s) && s.m.restartCount < s.m.options.maxRestarts
    ensures Enabled(s, Exit(Some(1), false)) && a == Next(s, Exit(Some(1), false))
    ensures a.starts == s.starts && a.now == s.now && a.children == s.children - 1 && a.callbacks == 0
    ensures a.m.options == s.m.options && a.m.phase.Crashed? && a.m.lastStart == Some(s.now) == a.m.endTime
    ensures a.m.restartCount == s.m.restartCount + 1 && a.m.scheduled == s.m.scheduled + 1
  {
    a := Next(s, Exit(Some(1), false));
  }

  /** One crash that schedules a restart, and an external start() that does not wait for its timer. */
  lemma {:induction false} CrashCycle(s: State, k: nat) returns (es: seq<Event>, t: State)
    requires Ready(s) && s.m.restartCount < s.m.options.maxRestarts && Pending(s.starts) + 1 <= k
    ensures RunWithin(s, es, t, k) && Ready(t) && Later(s, t, 1)
  {
    var a := CrashSchedules(s);
    es, a := Advance(s, [], s, Exit(Some(1), false), k);
    var more;
    more, t := StartAndSpawn(a, k);
    es := Join(s, es, a, more, t, k);
  }

  lemma {:induction false} CrashCycles(s: State, n: nat, k: nat) returns (es: seq<Event>, t: State)
    requires Ready(s) && s.m.restartCount + n <= s.m.options.maxRestarts && Pending(s.starts) + 1 <= k
    ensures RunWithin(s, es, t, k) && Ready(t) && Later(s, t, n)
    decreases n
  {
    es, t := [], s;
    if n > 0 {
      var first, mid := CrashCycle(s, k);
      var rest;
      rest, t := CrashCycles(mid, n - 1, k);
      es := Join(s, first, mid, rest, t, k);
    }
  }

  /** A start() judging the last run stable waits with its reset. */
  lemma {:induction false} StartAndJudge(s: State, k: nat) returns (es: seq<Event>, t: State)
    requires CanStart(s.m) && WasStable(s.m) && Pending(s.starts) + 1 <= k
    ensures RunWithin(s, es, t, k) && Pending(t.starts) == Pending(s.starts) + 1
    ensures t == s.(m := s.m.(phase := Starting), starts := s.starts + [Resetting])
  {
    var called := Next(s, StartCall);
    assert called == s.(m := s.m.(phase := Starting), starts := s.starts + [Logging]);
    PendingSnoc(s.starts, Logging);
    PendingSnoc(s.starts, Resetting);
    es, t := Advance(s, [], s, StartCall, k);
    assert called.starts[|s.starts| := Resetting] == s.starts + [Resetting];
    es, t := Advance(s, es, called, StartGoesOn(|s.starts|, true), k);
  }

  /** An `error` event marks the child crashed while it lives on, and a second start() adds another. */
  lemma {:induction false} TwoChildren(options: Options, k: nat) returns (es: seq<Event>, t: State)
    requires options.autoRestart && k >= 1
    ensures RunWithin(InitState(options), es, t, k) && Ready(t) && t.now == 0 && t.children == 2
    ensures Pending(t.starts) == 0 && t.m.options == options && t.m.restartCount == 0 == t.m.scheduled
  {
    var s := InitState(options);
    assert Pending(s.starts) == 0;
    es, t := StartAndSpawn(s, k);
    var failed, more;
    assert Next(t, ChildError) == t.(m := t.m.(phase := Crashed));
    es, failed := Advance(s, es, t, ChildError, k);
    more, t := StartAndSpawn(failed, k);
    es := Join(s, es, failed, more, t, k);
  }

  /** After a long run with the budget spent, one of two children ends it. */
  lemma LongRunEnds(s: State) returns (a: State, b: State)
    requires Ready(s) && s.children == 2 && s.m.restartCount == s.m.options.maxRestarts
    ensures a == Next(s, Tick(300001)) && Enabled(a, Exit(Some(1), false)) && b == Next(a, Exit(Some(1), false))
    ensures a.starts == b.starts == s.starts && b.now == s.now + 300001 && b.children == 1 && b.callbacks == 0
    ensures b.m.phase.Crashed? && b.m.options == s.m.options && b.m.scheduled == s.m.scheduled
    ensures b.m.lastStart == Some(s.now) && b.m.endTime == Some(b.now) && WasStable(b.m)
  {
    a := Next(s, Tick(300001));
    b := Next(a, Exit(Some(1), false));
  }

  /** The whole budget is used, and a first start() has judged the run that used it. */
  lemma {:induction false} FirstHalf(options: Options, k: nat) returns (es: seq<Event>, d: State, i: nat)
    requires options.autoRestart && options.maxRestarts >= 1 && k >= 2
    ensures RunWithin(InitState(options), es, d, k)
    ensures d.now == 300001 && d.children == 1 && d.callbacks == 0 && d.m.phase.Starting? && d.m.options == options
    ensures d.m.lastStart == Some(0) && d.m.scheduled == options.maxRestarts
    ensures i < |d.starts| && d.starts[i].Resetting? && Pending(d.starts) == 1
  {
    var s := InitState(options);
    var t;
    es, t := TwoChildren(options, k);
    var more, u := CrashCycles(t, options.maxRestarts, k);
    es := Join(s, es, t, more, u, k);
    var a, b := LongRunEnds(u);
    es, a := Advance(s, es, u, Tick(300001), k);
    es, b := Advance(s, es, a, Exit(Some(1), false), k);
    more, d := StartAndJudge(b, k);
    es := Join(s, es, b, more, d, k);
    i := |u.starts|;
  }

  /** The other child's exit takes a pending start() out of `starting`. */
  lemma ExitWhileStarting(d: State) returns (e: State)
    requires d.children == 1 && d.m.phase.Starting?
    ensures Enabled(d, Exit(Some(1), false)) && e == Next(d, Exit(Some(1), false))
    ensures e.starts == d.starts && e.now == d.now && e.children == 0 && e.callbacks == d.callbacks
    ensures e.m.phase.Stopped? && e.m.options == d.m.options && e.m.scheduled == d.m.scheduled
    ensures e.m.lastStart == d.m.lastStart && e.m.endTime == Some(d.now)
  {
    e := Next(d, Exit(Some(1), false));
  }

  lemma ResetAndSpawn(t: State, i: nat) returns (u: State)
    requires t.m.options.autoRestart && t.callbacks == 0 && i < |t.starts| && t.starts[i].Resetting?
    ensures Enabled(t, ResetDone(i, true)) && u == Next(t, ResetDone(i, true)) && u.starts == t.starts[i := Announcing]
    ensures Pending(u.starts) == Pending(t.starts) - 1
    ensures Ready(u) && u.now == t.now && u.m.options == t.m.options && u.m.restartCount == 0
        && u.m.scheduled == t.m.scheduled
  {
    u := Next(t, ResetDone(i, true));
    PendingUpdate(t.starts, i, Announcing);
  }

  /** So a second start() judges the same run, resets the count, and the whole budget is used again while the
      first start() still waits. */
  lemma {:induction false} SecondHalf(d: State, i: nat, k: nat) returns (es: seq<Event>, t: State)
    requires d.m.options.autoRestart && d.m.options.maxRestarts >= 1 && k >= 2
    requires d.now == 300001 && d.children == 1 && d.callbacks == 0 && d.m.phase.Starting? && d.m.lastStart == Some(0)
    requires i < |d.starts| && d.starts[i].Resetting? && Pending(d.starts) == 1
    ensures RunWithin(d, es, t, k) && Ready(t) && t.now == d.now && t.m.options == d.m.options
    ensures t.m.scheduled == d.m.scheduled + d.m.options.maxRestarts
    ensures i < |t.starts| && t.starts[i].Resetting? && Pending(t.starts) == 1
  {
    var more, g;
    var e := ExitWhileStarting(d);
    es, e := Advance(d, [], d, Exit(Some(1), false), k);
    more, g := StartAndJudge(e, k);
    es := Join(d, es, e, more, g, k);
    var h := ResetAndSpawn(g, |d.starts|);
    es, h := Advance(d, es, g, ResetDone(|d.starts|, true), k);
    assert h.starts[i] == d.starts[i];
    more, t := CrashCycles(h, d.m.options.maxRestarts, k);
    assert t.starts[i] == h.starts[i];
    es := Join(d, es, h, more, t, k);
  }

  /** Whenever a restart is possible at all, two overlapping starts suffice to exceed the bound: both reset the
      count on the strength of the same run, so the budget is used three times in five minutes and a millisecond. */
  lemma {:induction false} OverlappingStartsExceedBound(options: Options, k: nat) returns (es: seq<Event>, t: State)
    requires options.autoRestart && options.maxRestarts >= 1 && k >= 2
    ensures RunWithin(InitState(options), es, t, k) && t.m.options == options && !WithinRate(t)
  {
    var s0, d, i, more := InitState(options), InitState(options), 0, [];
    es, d, i := FirstHalf(options, k);
    more, t := SecondHalf(d, i, k);
    es := Join(s0, es, d, more, t, k);
    var u := ResetAndSpawn(t, i);
    es, u := Advance(s0, es, t, ResetDone(i, true), k);
    more, t := CrashCycle(u, k);
    es := Join(s0, es, u, more, t, k);
  }

  lemma {:induction false} NothingScheduled(s: State, es: seq<Event>, t: State)
    requires Inv(s) && Run(s, es, t) && (!s.m.options.autoRestart || s.m.options.maxRestarts <= 0)
    ensures t.m.scheduled == s.m.scheduled && t.m.options == s.m.options
    decreases es
  {
    if es != [] {
      StepKeepsInv(s, es[0]);
      StepEmits(s, es[0]);
      assert ProcessCrashed(true) !in EmittedBy(s, es[0]);
      NothingScheduled(Next(s, es[0]), es[1..], t);
    }
  }

  lemma {:induction false} WithinIsRun(s: State, es: seq<Event>, t: State, k: nat)
    requires RunWithin(s, es, t, k)
    ensures Run(s, es, t)
    decreases es
  {
    if es != [] {
      WithinIsRun(Next(s, es[0]), es[1..], t, k);
    }
  }

  lemma {:induction false} FewerPending(s: State, es: seq<Event>, t: State, k: nat, most: nat)
    requires RunWithin(s, es, t, k) && k <= most
    ensures RunWithin(s, es, t, most)
    decreases es
  {
    if es != [] {
      FewerPending(Next(s, es[0]), es[1..], t, k, most);
    }
  }

  /** No run with at most `k` starts pending at once schedules more restarts than the rate allows. */
  ghost predicate AlwaysWithinRate(options: Options, k: nat) {
    forall es: seq<Event>, t: State | RunWithin(InitState(options), es, t, k) :: WithinRate(t)
  }

  /** The exact condition for the restart rate bound: starts never overlap, or no restart is possible at all. */
  lemma RateBoundIff(options: Options, k: nat)
    ensures AlwaysWithinRate(options, k) <==> k <= 1 || !options.autoRestart || options.maxRestarts <= 0
  {
    if k <= 1 {
      forall es: seq<Event>, t: State | RunWithin(InitState(options), es, t, k) ensures WithinRate(t) {
        FewerPending(InitState(options), es, t, k, 1);
        RestartRateBound(options, es, t);
      }
    } else if options.autoRestart && options.maxRestarts >= 1 {
      var es, t := OverlappingStartsExceedBound(options, k);
    } else {
      forall es: seq<Event>, t: State | RunWithin(InitState(options), es, t, k) ensures WithinRate(t) {
        WithinIsRun(InitState(options), es, t, k);
        NothingScheduled(InitState(options), es, t);
        RunKeepsClock(InitState(options), es, t);
        MulMono(Budget(t.m.options), 0, 1 + t.now / STABILITY_THRESHOLD_MS);
      }
    }
  }

  lemma {:induction false} RunKeepsClock(s: State, es: seq<Event>, t: State)
    requires Run(s, es, t)
    ensures t.now >= s.now
    decreases es
  {
    if es != [] {
      RunKeepsClock(Next(s, es[0]), es[1..], t);
    }
  }

  // ---------- undisturbed runs ----------

  /** One child at most, alive exactly in `running`, and one pending start() exactly in `starting`. */
  ghost predicate Calm(s: State) {
    && s.stops == [] && !s.m.phase.Stopping?
    && s.children == (if s.m.phase.Running? then 1 else 0)
    && Pending(s.starts) == (if s.m.phase.Starting? then 1 else 0)
    && (s.m.phase.Running? ==> (s.m.healthTimer.Some? <==> s.m.options.healthCheckInterval > 0))
    && (s.m.options.healthCheckInterval <= 0 ==> s.m.healthTimer.None?)
  }

  predicate Disturbs(e: Event) { e.StopCall? || e.ChildError? }

  lemma {:induction false} SomePending(starts: seq<StartPc>, i: nat)
    requires i < |starts| && Unfinished(starts[i])
    ensures Pending(starts) >= 1
  {
    if Pending(starts) == 0 { NonePending(starts); }
  }

  lemma {:induction false} StartStepStaysCalm(s: State, e: Event, i: nat)
    requires Calm(s) && Enabled(s, e)
    requires e == StartGoesOn(i, true) || e == StartGoesOn(i, false) || e == ResetDone(i, true)
             || e == ResetDone(i, false)
             || e == StartFails(i) || e == StartAnnounced(i)
    ensures Calm(Next(s, e))
  {
    if Unfinished(s.starts[i]) { SomePending(s.starts, i); }
    PendingUpdate(s.starts, i, Next(s, e).starts[i]);
    assert Next(s, e).starts == s.starts[i := Next(s, e).starts[i]];
  }

  lemma CallStaysCalm(s: State)
    requires Calm(s)
    ensures Calm(Call(s))
  {
    PendingSnoc(s.starts, Logging);
  }

  lemma ExitStaysCalm(s: State, code: Option<int>, signal: bool)
    requires Calm(s) && s.children > 0
    ensures Calm(Next(s, Exit(code, signal)))
  {
    var t := Next(s, Exit(code, signal));
    assert t.m.phase.Crashed? || t.m.phase.Stopped?;
    assert t.starts == s.starts && t.stops == s.stops && t.children == 0;
  }

  lemma {:induction false} StepStaysCalm(s: State, e: Event)
    requires Calm(s) && Enabled(s, e) && !Disturbs(e)
    ensures Calm(Next(s, e))
  {
    match e {
      case StartCall => CallStaysCalm(s);
      case RestartStarts => CallStaysCalm(s.(callbacks := s.callbacks - 1));
      case Exit(code, signal) => ExitStaysCalm(s, code, signal);
      case StartGoesOn(i, ok) => StartStepStaysCalm(s, e, i);
      case ResetDone(i, ok) => StartStepStaysCalm(s, e, i);
      case StartFails(i) => StartStepStaysCalm(s, e, i);
      case StartAnnounced(i) => StartStepStaysCalm(s, e, i);
      case _ =>
    }
  }

  lemma {:induction false} RunStaysCalm(s: State, es: seq<Event>, t: State)
    requires Calm(s) && Run(s, es, t) && forall e | e in es :: !Disturbs(e)
    ensures Calm(t) && RunWithin(s, es, t, 1)
    decreases es
  {
    if es != [] {
      StepStaysCalm(s, es[0]);
      RunStaysCalm(Next(s, es[0]), es[1..], t);
    }
  }

  /** As long as no child reports an error and nobody calls stop(), on every run, however start() is called: at
      most one child lives, and the process counts as running exactly while it does; so every unclean exit
      schedules its restart while budget is left, its health is checked if that is on at all, starts never overlap,
      and the rate bound holds without further hypotheses. */
  lemma UndisturbedRunsAreSupervised(options: Options, es: seq<Event>, t: State, code: Option<int>, signal: bool)
    requires Run(InitState(options), es, t) && forall e | e in es :: !Disturbs(e)
    ensures t.children <= 1 && (t.children == 1 <==> t.m.phase.Running?)
    ensures t.children == 1 && MayRestart(t.m) && !CleanExit(t, code, signal)
            ==> Next(t, Exit(code, signal)).m.scheduled == t.m.scheduled + 1
    ensures t.children == 1 ==> (t.m.ticking != {} <==> options.healthCheckInterval > 0)
    ensures WithinRate(t)
  {
    RunKeepsInv(InitState(options), es, t);
    RunStaysCalm(InitState(options), es, t);
    RestartRateBound(options, es, t);
    if t.children == 1 {
      ExitIsCrashOrStop(t, code, signal);
    }
  }
}
