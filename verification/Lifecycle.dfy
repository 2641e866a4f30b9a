/** The supervisor's process lifecycle. `Monitor` is the supervisor's own state, and each function on it
    is one stretch of code that runs without an await; class ProcessMonitor runs the same stretches on its fields. */
module Lifecycle {
  import opened Common

  const STABILITY_THRESHOLD_MS := 300000
  const INACTIVITY_THRESHOLD_MS := 30000

  datatype Phase = Stopped | Starting | Running | Stopping | Crashed

  datatype Options = Options(autoRestart: bool, maxRestarts: int, healthCheckInterval: int)

  datatype Emitted = ProcessStarted | ProcessStopped | ProcessCrashed(willRestart: bool)

  /** `armed` and `ticking` are the timers the runtime still holds; `restartTimer` and `healthTimer` are the
      supervisor's two fields. `scheduled` and `spawned` count restarts scheduled and children spawned. */
  datatype Monitor = Monitor(
    options: Options,
    phase: Phase,
    restartCount: int,
    restartTimer: Option<nat>,
    armed: set<nat>,
    healthTimer: Option<nat>,
    ticking: set<nat>,
    nextTimer: nat,
    endTime: Option<int>,
    lastStart: Option<int>,
    lastActivity: int,
    emitted: seq<Emitted>,
    scheduled: nat,
    spawned: nat)

  function Init(options: Options): Monitor {
    Monitor(options, Stopped, 0, None, {}, None, {}, 0, None, None, 0, [], 0, 0)
  }

  function Opt(timer: Option<nat>): set<nat> {
    if timer.Some? then {timer.value} else {}
  }

  // ---------- start() ----------

  predicate CanStart(m: Monitor) { m.phase.Stopped? || m.phase.Crashed? }

  function Begin(m: Monitor): Monitor {
    if CanStart(m) then m.(phase := Starting) else m
  }

  /** The previous run lasted more than five minutes. */
  predicate WasStable(m: Monitor) {
    m.lastStart.Some? && m.endTime.Some? && m.endTime.value - m.lastStart.value > STABILITY_THRESHOLD_MS
  }

  function Launch(m: Monitor, now: int): Monitor {
    StartHealth(m).(
      phase := Running,
      endTime := None,
      lastStart := Some(now),
      lastActivity := now,
      spawned := m.spawned + 1)
  }

  function StartHealth(m: Monitor): Monitor {
    if m.options.healthCheckInterval <= 0 then m
    else m.(
      healthTimer := Some(m.nextTimer),
      ticking := m.ticking - Opt(m.healthTimer) + {m.nextTimer},
      nextTimer := m.nextTimer + 1)
  }

  // ---------- stop() ----------

  predicate CanStop(m: Monitor) { !m.phase.Stopped? && !m.phase.Starting? }

  /** From the request to the first later await: a pending restart is cancelled. */
  function EnterStopping(m: Monitor): Monitor {
    m.(phase := Stopping, restartTimer := None, armed := m.armed - Opt(m.restartTimer))
  }

  function StopHealth(m: Monitor): Monitor {
    m.(healthTimer := None, ticking := m.ticking - Opt(m.healthTimer))
  }

  function Settle(m: Monitor): Monitor {
    if m.phase.Stopping? then m.(phase := Stopped) else m
  }

  function Emit(m: Monitor, e: Emitted): Monitor {
    m.(emitted := m.emitted + [e])
  }

  // ---------- events from the child and the timers ----------

  predicate ShouldRestart(m: Monitor, now: int, code: Option<int>, signal: bool) {
    && m.restartCount < m.options.maxRestarts
    && (signal || code != Some(0) || now - m.lastActivity > INACTIVITY_THRESHOLD_MS)
  }

  function ScheduleRestart(m: Monitor): Monitor {
    m.(
      restartCount := m.restartCount + 1,
      restartTimer := Some(m.nextTimer),
      armed := m.armed - Opt(m.restartTimer) + {m.nextTimer},
      nextTimer := m.nextTimer + 1,
      scheduled := m.scheduled + 1)
  }

  function Exited(m: Monitor, now: int, code: Option<int>, signal: bool): Monitor {
    var ended := m.(endTime := Some(now));
    var restart := m.phase.Running? && m.options.autoRestart && ShouldRestart(m, now, code, signal);
    if m.phase.Running? && (code != Some(0) || restart) then
      var crashed := Emit(ended.(phase := Crashed), ProcessCrashed(restart));
      if restart then ScheduleRestart(crashed) else crashed
    else if !m.phase.Stopped? then Emit(ended.(phase := Stopped), ProcessStopped)
    else ended
  }

  function Errored(m: Monitor): Monitor {
    if m.phase.Running? || m.phase.Starting? then m.(phase := Crashed) else m
  }

  function TimerFired(m: Monitor, timer: nat): Monitor {
    m.(armed := m.armed - {timer}, restartTimer := None)
  }

  predicate RestartGoesAhead(m: Monitor) { !m.phase.Stopped? && !m.phase.Stopping? }

  // ---------- the object ----------

  class ProcessMonitor {
    const options: Options
    var phase: Phase
    var restartCount: int
    var restartTimer: Option<nat>
    var armed: set<nat>
    var healthTimer: Option<nat>
    var ticking: set<nat>
    var nextTimer: nat
    var endTime: Option<int>
    var lastStart: Option<int>
    var lastActivity: int
    var emitted: seq<Emitted>
    var scheduled: nat
    var spawned: nat

    function View(): Monitor
      reads this
    {
      Monitor(options, phase, restartCount, restartTimer, armed, healthTimer, ticking, nextTimer,
              endTime, lastStart, lastActivity, emitted, scheduled, spawned)
    }

    constructor (options: Options)
      ensures View() == Init(options)
    {
      this.options := options;
      phase, restartCount := Stopped, 0;
      restartTimer, armed, healthTimer, ticking, nextTimer := None, {}, None, {}, 0;
      endTime, lastStart, lastActivity := None, None, 0;
      emitted, scheduled, spawned := [], 0, 0;
    }

    method StartEntry() returns (accepted: bool)
      modifies this
      ensures accepted == CanStart(old(View())) && View() == Begin(old(View()))
    {
      if phase != Stopped && phase != Crashed {
        return false;
      }
      phase := Starting;
      return true;
    }

    /** After the awaited start entry: a stable run's reset awaits another entry, otherwise the child is spawned. */
    method AfterStartLogged(now: int, ok: bool) returns (waitsForReset: bool)
      modifies this
      ensures waitsForReset == WasStable(old(View()))
      ensures View() == if ok && !waitsForReset then Launch(old(View()), now) else old(View())
    {
      waitsForReset := lastStart.Some? && endTime.Some? && endTime.value - lastStart.value > STABILITY_THRESHOLD_MS;
      if ok && !waitsForReset { Spawned(now); }
    }

    /** After that entry the count is reset without another look at the run. */
    method AfterResetLogged(now: int, ok: bool)
      modifies this
      ensures var reset := old(View()).(restartCount := 0); View() == if ok then Launch(reset, now) else reset
    {
      restartCount := 0;
      if ok { Spawned(now); }
    }

    method Spawned(now: int)
      modifies this
      ensures View() == Launch(old(View()), now)
    {
      spawned := spawned + 1;
      endTime := None;
      StartHealthMonitoring();
      phase := Running;
      lastActivity := now;
      lastStart := Some(now);
    }

    method StartHealthMonitoring()
      modifies `healthTimer, `ticking, `nextTimer
      ensures View() == StartHealth(old(View()))
    {
      if options.healthCheckInterval <= 0 {
        return;
      }
      if healthTimer.Some? {
        ticking := ticking - {healthTimer.value};
        healthTimer := None;
      }
      healthTimer := Some(nextTimer);
      ticking := ticking + {nextTimer};
      nextTimer := nextTimer + 1;
    }

    method StopRequested() returns (accepted: bool)
      ensures accepted == CanStop(View())
    {
      accepted := phase != Stopped && phase != Starting;
    }

    method StopEntry() returns (cancelled: bool)
      modifies this
      ensures View() == EnterStopping(old(View()))
      ensures cancelled == old(View()).restartTimer.Some?
    {
      phase := Stopping;
      cancelled := restartTimer.Some?;
      if restartTimer.Some? {
        armed := armed - {restartTimer.value};
        restartTimer := None;
      }
    }

    method StopHealthMonitoring()
      modifies `healthTimer, `ticking
      ensures View() == StopHealth(old(View()))
    {
      if healthTimer.Some? {
        ticking := ticking - {healthTimer.value};
        healthTimer := None;
      }
    }

    method AfterKill() returns (report: bool)
      modifies `phase
      ensures View() == Settle(old(View())) && report == old(View()).phase.Stopping?
    {
      report := false;
      if phase == Stopping {
        phase := Stopped;
        report := true;
      }
    }

    method OnExit(now: int, code: Option<int>, signal: bool)
      modifies this
      ensures View() == Exited(old(View()), now, code, signal)
    {
      var wasRunning := phase == Running;
      endTime := Some(now);
      var shouldRestart := wasRunning && options.autoRestart && ShouldRestartAfterExit(now, code, signal);
      var isUnexpectedCrash := wasRunning && (code != Some(0) || shouldRestart);
      if isUnexpectedCrash {
        phase := Crashed;
        emitted := emitted + [ProcessCrashed(shouldRestart)];
        if shouldRestart {
          ArmRestart();
        }
      } else if phase != Stopped {
        phase := Stopped;
        emitted := emitted + [ProcessStopped];
      }
    }

    predicate ShouldRestartAfterExit(now: int, code: Option<int>, signal: bool)
      reads this
    {
      if restartCount >= options.maxRestarts then false
      else if signal then true
      else if code == Some(0) then now - lastActivity > INACTIVITY_THRESHOLD_MS
      else true
    }

    method ArmRestart()
      modifies this
      ensures View() == ScheduleRestart(old(View()))
    {
      if restartTimer.Some? {
        armed := armed - {restartTimer.value};
        restartTimer := None;
      }
      restartCount := restartCount + 1;
      restartTimer := Some(nextTimer);
      armed := armed + {nextTimer};
      nextTimer := nextTimer + 1;
      scheduled := scheduled + 1;
    }

    method OnError()
      modifies `phase
      ensures View() == Errored(old(View()))
    {
      if phase == Running || phase == Starting {
        phase := Crashed;
      }
    }

    method OnRestartTimer(timer: nat) returns (goesAhead: bool)
      modifies `armed, `restartTimer
      ensures View() == TimerFired(old(View()), timer) && goesAhead == RestartGoesAhead(old(View()))
    {
      armed := armed - {timer};
      restartTimer := None;
      goesAhead := !(phase == Stopped || phase == Stopping);
    }
  }

  // ---------- all interleavings ----------

  /** How far each call of start() has come; `Logging` and `Resetting` await a log write before the spawn,
      `Failing` before the error path, `Announcing` before the started event. */
  datatype StartPc = Logging | Resetting | Failing | Announcing | Started

  /** How far each call of stop() has come. */
  datatype StopPc = Requested | Cancelling | Killing | Reporting | Done

  /** `callbacks` counts restart callbacks between their phase check and their start(). */
  datatype State = State(
    m: Monitor,
    now: int,
    children: nat,
    starts: seq<StartPc>,
    stops: seq<StopPc>,
    callbacks: nat)

  /** The environment chooses when awaits end, whether a spawn succeeds, and when a child
      writes, fails or exits; a kill may resolve at any time (exit, timeout or no target). */
  datatype Event =
    | Tick(ms: nat)
    | StartCall
    | StartGoesOn(i: nat, ok: bool)
    | ResetDone(i: nat, ok: bool)
    | StartFails(i: nat)
    | StartAnnounced(i: nat)
    | StopCall
    | StopEnters(j: nat)
    | CancelLogged(j: nat)
    | KillResolves(j: nat)
    | StopReported(j: nat)
    | Exit(code: Option<int>, signal: bool)
    | ChildError
    | Output
    | RestartFires(timer: nat)
    | RestartStarts

  predicate Enabled(s: State, e: Event) {
    match e
    case StartGoesOn(i, _) => i < |s.starts| && s.starts[i].Logging?
    case ResetDone(i, _) => i < |s.starts| && s.starts[i].Resetting?
    case StartFails(i) => i < |s.starts| && s.starts[i].Failing?
    case StartAnnounced(i) => i < |s.starts| && s.starts[i].Announcing?
    case StopEnters(j) => j < |s.stops| && s.stops[j].Requested?
    case CancelLogged(j) => j < |s.stops| && s.stops[j].Cancelling?
    case KillResolves(j) => j < |s.stops| && s.stops[j].Killing?
    case StopReported(j) => j < |s.stops| && s.stops[j].Reporting?
    case Exit(_, _) => s.children > 0
    case ChildError => s.children > 0
    case RestartFires(timer) => timer in s.m.armed
    case RestartStarts => s.callbacks > 0
    case _ => true
  }

  function Call(s: State): State {
    if CanStart(s.m) then s.(m := Begin(s.m), starts := s.starts + [Logging]) else s
  }

  function Spawn(s: State, i: nat, ok: bool): State
    requires i < |s.starts|
  {
    if ok then s.(m := Launch(s.m, s.now), children := s.children + 1, starts := s.starts[i := Announcing])
    else s.(starts := s.starts[i := Failing])
  }

  function Next(s: State, e: Event): State
    requires Enabled(s, e)
  {
    match e
    case Tick(ms) => s.(now := s.now + ms)
    case StartCall => Call(s)
    case StartGoesOn(i, ok) => if WasStable(s.m) then s.(starts := s.starts[i := Resetting]) else Spawn(s, i, ok)
    case ResetDone(i, ok) => Spawn(s.(m := s.m.(restartCount := 0)), i, ok)
    case StartFails(i) => s.(m := s.m.(phase := Stopped), starts := s.starts[i := Started])
    case StartAnnounced(i) => s.(m := Emit(s.m, ProcessStarted), starts := s.starts[i := Started])
    case StopCall => if CanStop(s.m) then s.(stops := s.stops + [Requested]) else s
    case StopEnters(j) =>
      var m := EnterStopping(s.m);
      if s.m.restartTimer.Some? then s.(m := m, stops := s.stops[j := Cancelling])
      else s.(m := StopHealth(m), stops := s.stops[j := Killing])
    case CancelLogged(j) => s.(m := StopHealth(s.m), stops := s.stops[j := Killing])
    case KillResolves(j) =>
      s.(m := Settle(s.m), stops := s.stops[j := if s.m.phase.Stopping? then Reporting else Done])
    case StopReported(j) => s.(m := Emit(s.m, ProcessStopped), stops := s.stops[j := Done])
    case Exit(code, signal) => s.(m := Exited(s.m, s.now, code, signal), children := s.children - 1)
    case ChildError => s.(m := Errored(s.m))
    case Output => s.(m := s.m.(lastActivity := s.now))
    case RestartFires(timer) =>
      s.(m := TimerFired(s.m, timer), callbacks := if RestartGoesAhead(s.m) then s.callbacks + 1 else s.callbacks)
    case RestartStarts => Call(s.(callbacks := s.callbacks - 1))
  }

  function InitState(options: Options): State {
    State(Init(options), 0, 0, [], [], 0)
  }

  ghost predicate Run(s: State, es: seq<Event>, t: State)
    decreases es
  {
    if es == [] then s == t else Enabled(s, es[0]) && Run(Next(s, es[0]), es[1..], t)
  }

  // ---------- timers and the restart budget ----------

  function Budget(options: Options): nat {
    if options.maxRestarts > 0 then options.maxRestarts else 0
  }

  ghost predicate Inv(s: State) {
    && TimersHeld(s.m)
    && 0 <= s.m.restartCount <= Budget(s.m.options)
    && (s.m.phase.Stopping? ==> StopUnderWay(s))
  }

  ghost predicate TimersHeld(m: Monitor) {
    && m.armed == Opt(m.restartTimer) && m.ticking == Opt(m.healthTimer)
    && (forall timer | timer in m.armed :: timer < m.nextTimer)
    && (forall timer | timer in m.ticking :: timer < m.nextTimer)
  }

  lemma StartKeepsTimers(m: Monitor, now: int)
    requires TimersHeld(m)
    ensures TimersHeld(Launch(m, now))
  {
  }

  lemma ExitKeepsTimers(m: Monitor, now: int, code: Option<int>, signal: bool)
    requires TimersHeld(m)
    ensures TimersHeld(Exited(m, now, code, signal))
  {
  }

  lemma {:induction false} StepKeepsTimers(s: State, e: Event)
    requires TimersHeld(s.m) && Enabled(s, e)
    ensures TimersHeld(Next(s, e).m)
  {
    match e {
      case StartGoesOn(i, ok) => StartKeepsTimers(s.m, s.now);
      case ResetDone(i, ok) => StartKeepsTimers(s.m.(restartCount := 0), s.now);
      case Exit(code, signal) => ExitKeepsTimers(s.m, s.now, code, signal);
      case _ =>
    }
  }

  lemma {:induction false} StepKeepsBudget(s: State, e: Event)
    requires 0 <= s.m.restartCount <= Budget(s.m.options) && Enabled(s, e)
    ensures 0 <= Next(s, e).m.restartCount <= Budget(s.m.options) && Next(s, e).m.options == s.m.options
  {
  }

  /** Some stop() is still to settle the phase. */
  ghost predicate StopUnderWay(s: State) {
    exists j :: 0 <= j < |s.stops| && (s.stops[j].Cancelling? || s.stops[j].Killing?)
  }

  lemma {:induction false} StepKeepsStopping(s: State, e: Event)
    requires Enabled(s, e) && (s.m.phase.Stopping? ==> StopUnderWay(s))
    ensures Next(s, e).m.phase.Stopping? ==> StopUnderWay(Next(s, e))
  {
    var t := Next(s, e);
    if t.m.phase.Stopping? {
      if e.StopEnters? {
        assert t.stops[e.j].Cancelling? || t.stops[e.j].Killing?;
      } else {
        var j :| 0 <= j < |s.stops| && (s.stops[j].Cancelling? || s.stops[j].Killing?);
        assert t.stops[j].Cancelling? || t.stops[j].Killing?;
      }
    }
  }

  lemma {:induction false} StepKeepsInv(s: State, e: Event)
    requires Inv(s) && Enabled(s, e)
    ensures Inv(Next(s, e)) && Next(s, e).m.options == s.m.options
  {
    StepKeepsTimers(s, e);
    StepKeepsBudget(s, e);
    StepKeepsStopping(s, e);
  }

  lemma {:induction false} RunKeepsInv(s: State, es: seq<Event>, t: State)
    requires Inv(s) && Run(s, es, t)
    ensures Inv(t) && t.m.options == s.m.options
    decreases es
  {
    if es != [] {
      StepKeepsInv(s, es[0]);
      RunKeepsInv(Next(s, es[0]), es[1..], t);
    }
  }

  /** On every run, whatever overlaps: the runtime holds exactly the timers in the two
      fields, so none leaks, and the restart count stays within its budget. */
  lemma {:induction false} TimersAndBudget(options: Options, es: seq<Event>, t: State)
    requires Run(InitState(options), es, t)
    ensures t.m.armed == Opt(t.m.restartTimer) && t.m.ticking == Opt(t.m.healthTimer)
    ensures 0 <= t.m.restartCount <= Budget(options)
  {
    RunKeepsInv(InitState(options), es, t);
  }

  predicate Unfinished(pc: StartPc) { pc.Logging? || pc.Resetting? || pc.Failing? }

  lemma {:induction false} Extend(s: State, es: seq<Event>, t: State, e: Event) returns (longer: seq<Event>, u: State)
    requires Run(s, es, t) && Enabled(t, e)
    ensures longer == es + [e] && u == Next(t, e) && Run(s, longer, u)
    decreases es
  {
    longer, u := es + [e], Next(t, e);
    if es != [] {
      var rest, _ := Extend(Next(s, es[0]), es[1..], t, e);
      assert longer[1..] == rest;
    } else {
      assert longer[1..] == [];
    }
  }

  // ---------- exits ----------

  predicate MayRestart(m: Monitor) { m.options.autoRestart && m.restartCount < m.options.maxRestarts }

  /** Code 0 and, where a restart is possible at all, nothing suggesting a kill. */
  predicate CleanExit(s: State, code: Option<int>, signal: bool) {
    code == Some(0) && (MayRestart(s.m) ==> !signal && s.now - s.m.lastActivity <= 30000)
  }

  /** What an exit reports: a crash only from `running` and only when not clean, nothing when
      already stopped, and a stop in every other phase. */
  function ExitReport(s: State, code: Option<int>, signal: bool): seq<Emitted> {
    if s.m.phase.Running? && !CleanExit(s, code, signal) then [ProcessCrashed(MayRestart(s.m))]
    else if s.m.phase.Stopped? then []
    else [ProcessStopped]
  }

  function EmittedBy(s: State, e: Event): seq<Emitted> {
    match e
    case StartAnnounced(_) => [ProcessStarted]
    case StopReported(_) => [ProcessStopped]
    case Exit(code, signal) => ExitReport(s, code, signal)
    case _ => []
  }

  lemma StepEmits(s: State, e: Event)
    requires Inv(s) && Enabled(s, e)
    ensures Next(s, e).m.emitted == s.m.emitted + EmittedBy(s, e)
    ensures Next(s, e).m.scheduled == s.m.scheduled + if ProcessCrashed(true) in EmittedBy(s, e) then 1 else 0
  {
  }

  /** An exit in any state, whatever the phase: its one report, and the exact condition under which it schedules a
      restart, arming one fresh timer in place of any older one. */
  lemma ExitIsCrashOrStop(s: State, code: Option<int>, signal: bool)
    requires Inv(s) && s.children > 0
    ensures var t := Next(s, Exit(code, signal)).m;
            && t.emitted == s.m.emitted + ExitReport(s, code, signal)
            && t.phase == (if ProcessCrashed(MayRestart(s.m)) in ExitReport(s, code, signal) then Crashed else Stopped)
            && (t.scheduled == s.m.scheduled + 1
                <==> s.m.phase.Running? && MayRestart(s.m) && !CleanExit(s, code, signal))
            && (if t.scheduled == s.m.scheduled + 1
                then t.restartCount == s.m.restartCount + 1 && t.restartTimer.Some? && t.armed == {t.restartTimer.value}
                     && t.restartTimer.value !in s.m.armed + s.m.ticking
                else t.scheduled == s.m.scheduled && t.restartCount == s.m.restartCount && t.armed == s.m.armed)
  {
    StepKeepsInv(s, Exit(code, signal));
  }

  /** So a failing child is not always restarted: the `error` event that precedes its exit takes the phase away from
      `running`, and the exit that would have scheduled a restart is reported as a stop. */
  lemma ErrorBeforeExitLosesRestart(options: Options) returns (es: seq<Event>, t: State)
    requires options.autoRestart && options.maxRestarts > 0
    ensures es == [StartCall, StartGoesOn(0, true), ChildError, Exit(Some(1), false)] && Run(InitState(options), es, t)
    ensures t.m.emitted == [ProcessStopped] && t.m.scheduled == 0 && t.m.phase.Stopped? && t.m.armed == {}
    ensures Next(Next(Next(InitState(options), StartCall), StartGoesOn(0, true)), Exit(Some(1), false)).m.scheduled == 1
  {
    es, t := [], InitState(options);
    es, t := Extend(InitState(options), es, t, StartCall);
    es, t := Extend(InitState(options), es, t, StartGoesOn(0, true));
    assert t == Next(Next(InitState(options), StartCall), StartGoesOn(0, true)) && t.m.phase.Running?;
    es, t := Extend(InitState(options), es, t, ChildError);
    es, t := Extend(InitState(options), es, t, Exit(Some(1), false));
  }

  function Exits(es: seq<Event>): nat {
    if es == [] then 0 else (if es[0].Exit? then 1 else 0) + Exits(es[1..])
  }

  /** The reports made by stop() itself. */
  function StopReports(es: seq<Event>): nat {
    if es == [] then 0 else (if es[0].StopReported? then 1 else 0) + StopReports(es[1..])
  }

  /** The exits of a run that find the process already stopped. */
  function SilentExits(s: State, es: seq<Event>): nat
    decreases es
  {
    if es == [] || !Enabled(s, es[0]) then 0
    else (if es[0].Exit? && s.m.phase.Stopped? then 1 else 0) + SilentExits(Next(s, es[0]), es[1..])
  }

  lemma StepAccounts(s: State, e: Event)
    requires Inv(s) && Enabled(s, e)
    ensures var t := Next(s, e);
            && Crashes(t) + Stops(t) + (if e.Exit? && s.m.phase.Stopped? then 1 else 0)
                 == Crashes(s) + Stops(s) + Exits([e]) + StopReports([e])
            && multiset(t.m.emitted)[ProcessCrashed(true)] + s.m.scheduled
                 == multiset(s.m.emitted)[ProcessCrashed(true)] + t.m.scheduled
            && t.m.spawned + s.children == s.m.spawned + t.children + Exits([e])
  {
    StepEmits(s, e);
    EmissionsAddUp(s.m.emitted, EmittedBy(s, e));
    assert [e][1..] == [];
    StepSpawns(s, e);
  }

  lemma EmissionsAddUp(before: seq<Emitted>, more: seq<Emitted>)
    ensures multiset(before + more) == multiset(before) + multiset(more)
  {
  }

  lemma StepSpawns(s: State, e: Event)
    requires Enabled(s, e)
    ensures Next(s, e).m.spawned + s.children == s.m.spawned + Next(s, e).children + if e.Exit? then 1 else 0
  {
  }

  /** On every run, however starts, stops, errors and exits overlap: each exit is reported exactly once, as a crash or a
      stop, unless the process was already stopped; the only other reports are those of stop(); restarts are scheduled
      exactly as often as a crash says so; and every child spawned is alive or has exited. */
  lemma {:induction false} EveryExitIsAccounted(s: State, es: seq<Event>, t: State)
    requires Inv(s) && Run(s, es, t)
    ensures Crashes(t) + Stops(t) + SilentExits(s, es) == Crashes(s) + Stops(s) + Exits(es) + StopReports(es)
    ensures multiset(t.m.emitted)[ProcessCrashed(true)] + s.m.scheduled
        == multiset(s.m.emitted)[ProcessCrashed(true)] + t.m.scheduled
    ensures t.m.spawned + s.children == s.m.spawned + t.children + Exits(es)
    decreases es
  {
    if es != [] {
      var e := es[0];
      StepKeepsInv(s, e);
      StepAccounts(s, e);
      assert [e][1..] == [];
      EveryExitIsAccounted(Next(s, e), es[1..], t);
    }
  }

  // ---------- what start() does ----------

  /** A restart timer that fires while crashed brings a new child, through no other call. */
  lemma {:induction false} ScheduledRestartHappens(s: State) returns (es: seq<Event>, t: State)
    requires Inv(s) && s.m.phase.Crashed? && s.m.restartTimer.Some?
    ensures Run(s, es, t)
    ensures forall e | e in es :: e.RestartFires? || e.RestartStarts? || e.StartGoesOn? || e.ResetDone?
    ensures t.m.phase.Running? && t.m.spawned == s.m.spawned + 1 && t.children == s.children + 1
    ensures t.m.restartTimer.None?
  {
    var i := |s.starts|;
    es, t := Extend(s, [], s, RestartFires(s.m.restartTimer.value));
    es, t := Extend(s, es, t, RestartStarts);
    es, t := Extend(s, es, t, StartGoesOn(i, true));
    if t.starts[i].Resetting? {
      es, t := Extend(s, es, t, ResetDone(i, true));
    }
  }

  /** The child has ended, some time passed and start() is called: what it does after its first await. */
  function StartAfterExit(s: State, code: Option<int>, signal: bool, wait: nat): State
    requires s.children > 0 && s.m.phase.Running?
  {
    var called := Next(Next(Next(s, Exit(code, signal)), Tick(wait)), StartCall);
    Next(called, StartGoesOn(|s.starts|, true))
  }

  /** Exactly a run of more than five minutes gives the restart budget back, at the next start. */
  lemma LongRunGivesBudgetBack(s: State, code: Option<int>, signal: bool, wait: nat)
    requires Inv(s) && s.children > 0 && s.m.phase.Running? && s.m.lastStart.Some?
    ensures var t, i := StartAfterExit(s, code, signal, wait), |s.starts|;
            && |t.starts| == i + 1
            && (if s.now - s.m.lastStart.value > 300000
                then t.starts[i].Resetting? && Next(t, ResetDone(i, true)).m.restartCount == 0
                     && Next(t, ResetDone(i, true)).m.phase.Running?
                else t.m.phase.Running? && t.m.restartCount == Next(s, Exit(code, signal)).m.restartCount)
  {
    var exited := Next(s, Exit(code, signal));
    assert CanStart(exited.m) && exited.m.lastStart == s.m.lastStart && exited.m.endTime == Some(s.now);
    FirstWaitOfStart(exited, wait);
  }

  lemma FirstWaitOfStart(s: State, wait: nat)
    requires CanStart(s.m)
    ensures var called, i := Next(Next(s, Tick(wait)), StartCall), |s.starts|;
            && |called.starts| == i + 1 && called.starts[i].Logging? && called.m == s.m.(phase := Starting)
  {
  }

  /** A spawn that fails ends the start in `stopped`, with nothing spawned and nothing reported. */
  lemma FailedSpawnEndsStopped(s: State, i: nat)
    requires i < |s.starts| && s.starts[i].Logging? && !WasStable(s.m)
    ensures var failing := Next(s, StartGoesOn(i, false));
            && Enabled(failing, StartFails(i))
            && Next(failing, StartFails(i)) == s.(m := s.m.(phase := Stopped), starts := s.starts[i := Started])
  {
  }

  /** An error event takes a running or starting process to `crashed`, and changes nothing else. */
  lemma ErrorOnlyCrashes(s: State)
    requires s.children > 0
    ensures var phase := if s.m.phase == Running || s.m.phase == Starting then Crashed else s.m.phase;
            Next(s, ChildError) == s.(m := s.m.(phase := phase))
  {
  }

  /** What the phase may become in each step. A stop whose phase another call has changed in the meantime leaves it. */
  lemma {:induction false} PhaseMoves(s: State, e: Event)
    requires Enabled(s, e)
    ensures var from, to := s.m.phase, Next(s, e).m.phase;
            match e
            case StartCall => to == if from.Stopped? || from.Crashed? then Starting else from
            case RestartStarts => to == if from.Stopped? || from.Crashed? then Starting else from
            case StartGoesOn(_, ok) => to == from || (ok && to == Running)
            case ResetDone(_, ok) => to == if ok then Running else from
            case StartFails(_) => to == Stopped
            case StopEnters(_) => to == Stopping
            case KillResolves(_) => to == if from.Stopping? then Stopped else from
            case Exit(_, _) => if from.Running? then to in {Crashed, Stopped} else to == Stopped
            case ChildError => to == if from.Running? || from.Starting? then Crashed else from
            case _ => to == from
  {
  }

  /** The last sign of life, the last spawn, and the last exit after it. */
  datatype Times = Times(sign: int, start: Option<int>, end: Option<int>)

  function TimesAfter(s: State, es: seq<Event>, times: Times): Times
    decreases es
  {
    if es == [] || !Enabled(s, es[0]) then times
    else
      var t := Next(s, es[0]);
      var next := if t.m.spawned > s.m.spawned then Times(s.now, Some(s.now), None)
                  else if es[0].Output? then times.(sign := s.now)
                  else if es[0].Exit? then times.(end := Some(s.now))
                  else times;
      TimesAfter(t, es[1..], next)
  }

  /** On every run the supervisor's three times are those of the last output or spawn, the last spawn, and the last
      exit since. */
  lemma {:induction false} TimesAreKept(s: State, es: seq<Event>, t: State)
    requires Run(s, es, t)
    ensures Times(t.m.lastActivity, t.m.lastStart, t.m.endTime)
            == TimesAfter(s, es, Times(s.m.lastActivity, s.m.lastStart, s.m.endTime))
    decreases es
  {
    if es != [] {
      TimesAreKept(Next(s, es[0]), es[1..], t);
    }
  }

  // ---------- stop() ----------

  predicate External(e: Event) { e.StartCall? || e.StopCall? }

  function Stops(s: State): nat { multiset(s.m.emitted)[ProcessStopped] }

  function Crashes(s: State): nat {
    multiset(s.m.emitted)[ProcessCrashed(true)] + multiset(s.m.emitted)[ProcessCrashed(false)]
  }

  /** A stop is under way or over, and no restart can start by itself; a timer still armed would find that out. */
  ghost predicate Quiet(s: State) {
    && (s.m.phase.Stopping? || s.m.phase.Stopped?)
    && s.callbacks == 0
    && (forall i | 0 <= i < |s.starts| :: !s.starts[i].Logging? && !s.starts[i].Resetting?)
  }

  /** Stop `j` is the only one left, and the stopped event is due or out exactly once since `before`. */
  ghost predicate OneStop(before: State, s: State, j: nat) {
    && j < |s.stops|
    && (forall k | 0 <= k < |s.stops| && k != j :: s.stops[k].Done?)
    && !s.stops[j].Requested? && s.m.restartTimer.None?
    && (s.m.phase.Stopping? ==> s.stops[j].Cancelling? || s.stops[j].Killing?)
    && (!s.stops[j].Cancelling? ==> s.m.ticking == {} && s.m.healthTimer.None?)
    && (forall i | 0 <= i < |s.starts| :: !Unfinished(s.starts[i]))
    && Stops(s) == Stops(before) + (if s.m.phase.Stopping? || s.stops[j].Reporting? then 0 else 1)
    && Crashes(s) == Crashes(before)
  }

  lemma {:induction false} StepKeepsQuiet(s: State, e: Event)
    requires Inv(s) && Quiet(s) && Enabled(s, e) && !e.StartCall?
    ensures Quiet(Next(s, e)) && Next(s, e).m.spawned == s.m.spawned
  {
  }

  lemma {:induction false} QuietStepCounts(s: State, e: Event)
    requires Inv(s) && Quiet(s) && Enabled(s, e)
    ensures Stops(Next(s, e)) == Stops(s) + (if EmittedBy(s, e) == [ProcessStopped] then 1 else 0)
    ensures Crashes(Next(s, e)) == Crashes(s)
  {
    StepEmits(s, e);
    EmissionsAddUp(s.m.emitted, EmittedBy(s, e));
  }

  lemma {:induction false} StepKeepsOneStop(before: State, s: State, j: nat, e: Event)
    requires Inv(s) && Quiet(s) && OneStop(before, s, j) && Enabled(s, e) && !External(e)
    ensures OneStop(before, Next(s, e), j)
  {
    QuietStepCounts(s, e);
    QuietStepKeepsOthers(s, e, j);
    QuietStepKeepsHealth(s, e, j);
  }

  lemma {:induction false} QuietStepKeepsOthers(s: State, e: Event, j: nat)
    requires Quiet(s) && Enabled(s, e) && !External(e) && j < |s.stops| && s.m.restartTimer.None?
    requires (forall k | 0 <= k < |s.stops| && k != j :: s.stops[k].Done?) && !s.stops[j].Requested?
    requires forall i | 0 <= i < |s.starts| :: !Unfinished(s.starts[i])
    ensures var t := Next(s, e);
            && j < |t.stops| && (forall k | 0 <= k < |t.stops| && k != j :: t.stops[k].Done?)
            && (forall i | 0 <= i < |t.starts| :: !Unfinished(t.starts[i]))
            && !t.stops[j].Requested? && t.m.restartTimer.None?
  {
  }

  lemma {:induction false} QuietStepKeepsHealth(s: State, e: Event, j: nat)
    requires Inv(s) && Quiet(s) && Enabled(s, e) && !External(e) && j < |s.stops| && !s.stops[j].Requested?
    requires !s.stops[j].Cancelling? ==> s.m.ticking == {} && s.m.healthTimer.None?
    ensures var t := Next(s, e);
            j < |t.stops| && (!t.stops[j].Cancelling? ==> t.m.ticking == {} && t.m.healthTimer.None?)
  {
  }

  lemma {:induction false} RunKeepsOneStop(before: State, s: State, j: nat, es: seq<Event>, t: State)
    requires Inv(s) && Quiet(s) && OneStop(before, s, j) && Run(s, es, t)
    requires forall e | e in es :: !External(e)
    ensures Inv(t) && Quiet(t) && OneStop(before, t, j) && t.m.spawned == s.m.spawned
    decreases es
  {
    if es != [] {
      var e := es[0];
      assert !External(e);
      StepKeepsInv(s, e);
      StepKeepsQuiet(s, e);
      StepKeepsOneStop(before, s, j, e);
      RunKeepsOneStop(before, Next(s, e), j, es[1..], t);
    }
  }

  /** From the moment a lone stop() enters `stopping`, with no start or restart callback half done and no later
      call: however the exits, the kill timeout, the child's errors and the awaits interleave, no child is
      spawned, no crash is reported and no restart is armed; `process_stopped` is emitted at most once, and
      exactly once by the time stop() returns, when the process is stopped and no health interval is live. */
  lemma {:induction false} StopIsFinalAndReportedOnce(s: State, j: nat, es: seq<Event>, t: State)
    requires Inv(s) && Enabled(s, StopEnters(j))
    requires forall k | 0 <= k < |s.stops| && k != j :: s.stops[k].Done?
    requires s.callbacks == 0 && forall i | 0 <= i < |s.starts| :: !Unfinished(s.starts[i])
    requires Run(Next(s, StopEnters(j)), es, t) && forall e | e in es :: !External(e)
    ensures t.m.spawned == s.m.spawned && Crashes(t) == Crashes(s)
    ensures t.m.armed == {} && t.m.restartTimer.None?
    ensures Stops(s) <= Stops(t) <= Stops(s) + 1
    ensures j < |t.stops|
    ensures t.stops[j].Done? ==> Stops(t) == Stops(s) + 1 && t.m.phase.Stopped?
    ensures t.stops[j].Done? ==> t.m.ticking == {} && t.m.healthTimer.None?
  {
    StepKeepsInv(s, StopEnters(j));
    RunKeepsOneStop(s, Next(s, StopEnters(j)), j, es, t);
  }

  /** stop() is refused or empty exactly while starting or stopped; called in any other state it can always run to
      its end, with the process reported stopped and no timer left. */
  lemma {:induction false} StopCanFinish(s: State) returns (es: seq<Event>, t: State)
    requires Inv(s)
    ensures s.m.phase.Stopped? || s.m.phase.Starting? ==> Next(s, StopCall) == s
    ensures Run(s, es, t) && forall e | e in es :: !e.StartCall?
    ensures !s.m.phase.Stopped? && !s.m.phase.Starting? ==>
              && |t.stops| == |s.stops| + 1 && t.stops[|s.stops|].Done? && t.m.phase.Stopped?
              && t.m.emitted == s.m.emitted + [ProcessStopped]
              && t.m.armed == {} && t.m.ticking == {}
  {
    var j := |s.stops|;
    es, t := [], s;
    if !s.m.phase.Stopped? && !s.m.phase.Starting? {
      es, t := Extend(s, es, t, StopCall);
      StepKeepsInv(s, StopCall);
      var u := t;
      es, t := Extend(s, es, t, StopEnters(j));
      StepKeepsInv(u, StopEnters(j));
      if t.stops[j].Cancelling? {
        u := t;
        es, t := Extend(s, es, t, CancelLogged(j));
        StepKeepsInv(u, CancelLogged(j));
      }
      es, t := StopFromKill(s, es, t, j);
    }
  }

  lemma {:induction false} StopFromKill(s: State, before: seq<Event>, u: State, j: nat)
    returns (es: seq<Event>, t: State)
    requires Run(s, before, u) && (forall e | e in before :: !e.StartCall?) && Inv(u)
    requires j < |u.stops| && u.stops[j].Killing? && u.m.phase.Stopping?
    ensures Run(s, es, t) && forall e | e in es :: !e.StartCall?
    ensures |t.stops| == |u.stops| && t.stops[j].Done? && t.m.phase.Stopped?
    ensures t.m.emitted == u.m.emitted + [ProcessStopped] && t.m.armed == u.m.armed && t.m.ticking == u.m.ticking
  {
    es, t := Extend(s, before, u, KillResolves(j));
    es, t := Extend(s, es, t, StopReported(j));
  }

  /** No continuation without an external start ever spawns a child. */
  ghost predicate NeverSpawns(s: State) {
    forall es: seq<Event>, t: State |
      Run(s, es, t) && (forall e | e in es :: !e.StartCall?) :: t.m.spawned == s.m.spawned
  }

  lemma {:induction false} RunKeepsQuiet(s: State, es: seq<Event>, t: State)
    requires Inv(s) && Quiet(s) && Run(s, es, t) && forall e | e in es :: !e.StartCall?
    ensures t.m.spawned == s.m.spawned
    decreases es
  {
    if es != [] {
      StepKeepsInv(s, es[0]);
      StepKeepsQuiet(s, es[0]);
      RunKeepsQuiet(Next(s, es[0]), es[1..], t);
    }
  }

  /** A start() that has not reached its spawn spawns, even after a stop. */
  lemma {:induction false} HalfDoneStartSpawns(
    s: State, before: seq<Event>, t: State, i: nat) returns (es: seq<Event>, u: State)
    requires Run(s, before, t) && i < |t.starts| && (t.starts[i].Logging? || t.starts[i].Resetting?)
    requires forall e | e in before :: !e.StartCall?
    ensures Run(s, es, u) && u.m.spawned == t.m.spawned + 1 && forall e | e in es :: !e.StartCall?
  {
    es, u := before, t;
    if t.starts[i].Logging? {
      es, u := Extend(s, es, u, StartGoesOn(i, true));
    }
    if u.starts[i].Resetting? {
      es, u := Extend(s, es, u, ResetDone(i, true));
    }
  }

  /** A restart callback that passed its check before the stop undoes the stop once the phase has settled. */
  lemma {:induction false} CallbackUndoesStop(s: State) returns (es: seq<Event>, t: State)
    requires Inv(s) && (s.m.phase.Stopping? || s.m.phase.Stopped?) && s.callbacks > 0
    ensures Run(s, es, t) && t.m.spawned == s.m.spawned + 1 && forall e | e in es :: !e.StartCall?
  {
    es, t := [], s;
    if s.m.phase.Stopping? {
      var j :| 0 <= j < |s.stops| && (s.stops[j].Cancelling? || s.stops[j].Killing?);
      if s.stops[j].Cancelling? {
        es, t := Extend(s, es, t, CancelLogged(j));
      }
      es, t := Extend(s, es, t, KillResolves(j));
    }
    es, t := Extend(s, es, t, RestartStarts);
    es, t := HalfDoneStartSpawns(s, es, t, |s.starts|);
  }

  /** Exactly when a stop is final: once stopping or stopped, no child is ever spawned without an external
      start if and only if no restart callback and no start() is past its own phase check. */
  lemma {:induction false} StopIsFinalIffNothingHalfDone(s: State)
    requires Inv(s) && (s.m.phase.Stopping? || s.m.phase.Stopped?)
    ensures NeverSpawns(s)
            <==> s.callbacks == 0
                 && forall i | 0 <= i < |s.starts| :: !s.starts[i].Logging? && !s.starts[i].Resetting?
  {
    if i :| 0 <= i < |s.starts| && (s.starts[i].Logging? || s.starts[i].Resetting?) {
      var es, t := HalfDoneStartSpawns(s, [], s, i);
    } else if s.callbacks > 0 {
      var es, t := CallbackUndoesStop(s);
    } else {
      forall es: seq<Event>, t: State | Run(s, es, t) && (forall e | e in es :: !e.StartCall?)
        ensures t.m.spawned == s.m.spawned
      {
        RunKeepsQuiet(s, es, t);
      }
    }
  }
}
