/** The lock file shared by the supervisor and the command line tool: any number
    of processes interleave the file-system steps of acquire and release. */
module FileLock {
  import opened Common

  const LOCK_STALE_MS := 30000
  const MAX_RETRIES := 10

  /** Where one process stands between two file-system calls. */
  datatype Pc =
    | Idle
    | Trying(attempt: nat)
    | Creating(attempt: nat, stamp: int)
    | Writing(stamp: int)
    | Holding(stamp: int)
    | Reading(attempt: nat)
    | Checking(attempt: nat, seen: Option<int>, readAt: int)
    | Unlinking(attempt: nat)
    | Sleeping(attempt: nat)
  {
    /** The process created the lock file and has not released it. */
    predicate Critical() { Writing? || Holding? }
  }

  /** `owner` and `stamp` describe who made the file; a reader sees the stamp only once it is `written`. */
  datatype LockFile = LockFile(owner: nat, stamp: int, written: bool)

  datatype State = State(now: int, file: Option<LockFile>, pcs: seq<Pc>)

  datatype Event =
    | Tick(ms: nat)
    | Begin(p: nat)
    | Stamp(p: nat)
    | Create(p: nat)
    | CreateError(p: nat)
    | Write(p: nat)
    | Read(p: nat)
    | Check(p: nat)
    | Unlink(p: nat)
    | Wake(p: nat)
    | Release(p: nat)

  function Init(processes: nat): State {
    State(0, None, seq(processes, _ => Idle))
  }

  predicate Enabled(s: State, e: Event) {
    e.Tick? || (
      && e.p < |s.pcs|
      && match e
         case Begin(p) => s.pcs[p].Idle?
         case Stamp(p) => s.pcs[p].Trying?
         case Create(p) => s.pcs[p].Creating?
         case CreateError(p) => s.pcs[p].Creating?
         case Write(p) => s.pcs[p].Writing?
         case Read(p) => s.pcs[p].Reading?
         case Check(p) => s.pcs[p].Checking?
         case Unlink(p) => s.pcs[p].Unlinking?
         case Wake(p) => s.pcs[p].Sleeping?
         case Release(p) => s.pcs[p].Holding?)
  }

  /** The head of the retry loop: another attempt, or give up. */
  function Retry(attempt: nat): Pc {
    if attempt + 1 < MAX_RETRIES then Trying(attempt + 1) else Idle
  }

  /** An unreadable or not yet written stamp parses to no number, and no number is never stale. */
  predicate Stale(now: int, seen: Option<int>) {
    seen.Some? && now - seen.value > LOCK_STALE_MS
  }

  function Move(s: State, p: nat, pc: Pc): State
    requires p < |s.pcs|
  {
    s.(pcs := s.pcs[p := pc])
  }

  function Next(s: State, e: Event): State
    requires Enabled(s, e)
  {
    match e
    case Tick(ms) => s.(now := s.now + ms)
    case Begin(p) => Move(s, p, Trying(0))
    case Stamp(p) => Move(s, p, Creating(s.pcs[p].attempt, s.now))
    case Create(p) =>
      if s.file.None? then
        Move(s, p, Writing(s.pcs[p].stamp)).(file := Some(LockFile(p, s.pcs[p].stamp, false)))
      else
        Move(s, p, Reading(s.pcs[p].attempt))
    case CreateError(p) => Move(s, p, Idle)
    case Write(p) =>
      var t := Move(s, p, Holding(s.pcs[p].stamp));
      if s.file.Some? && s.file.value.owner == p then t.(file := Some(s.file.value.(written := true))) else t
    case Read(p) =>
      if s.file.None? then Move(s, p, Sleeping(s.pcs[p].attempt))
      else
        var seen := if s.file.value.written then Some(s.file.value.stamp) else None;
        Move(s, p, Checking(s.pcs[p].attempt, seen, s.now))
    case Check(p) =>
      if Stale(s.now, s.pcs[p].seen) then Move(s, p, Unlinking(s.pcs[p].attempt))
      else Move(s, p, Sleeping(s.pcs[p].attempt))
    case Unlink(p) => Move(s, p, Retry(s.pcs[p].attempt)).(file := None)
    case Wake(p) => Move(s, p, Retry(s.pcs[p].attempt))
    case Release(p) => Move(s, p, Idle).(file := None)
  }

  /** What may become of the lock file in one step: made where there was none, stamped by its own maker, or removed by
      a release or by a process that found it stale. */
  lemma FileMoves(s: State, e: Event)
    requires Enabled(s, e)
    ensures var before, after := s.file, Next(s, e).file;
            match e
            case Create(p) =>
              after == if before.Some? then before else Some(LockFile(p, s.pcs[p].stamp, false))
            case Write(p) =>
              (if before.Some? && before.value.owner == p
               then after == Some(LockFile(p, before.value.stamp, true)) else after == before)
            case Release(_) => after == None
            case Unlink(_) => after == None
            case _ => after == before
  {
  }

  /** A step of one process leaves the others where they are, and an unexpected error ends its acquire at once. */
  lemma OneMovesAtATime(s: State, e: Event, q: nat)
    requires Enabled(s, e) && q < |s.pcs|
    ensures |Next(s, e).pcs| == |s.pcs|
    ensures e.Tick? || e.p != q ==> Next(s, e).pcs[q] == s.pcs[q]
    ensures e == CreateError(q) ==> Next(s, e).pcs[q] == Idle
  {
  }

  /** The timing assumption: a lock file is gone `hold` ms after its stamp, and a
      staleness check follows its read by at most `delay` ms. */
  ghost predicate Timely(s: State, hold: nat, delay: nat) {
    && (s.file.Some? ==> s.now - s.file.value.stamp <= hold)
    && (forall p | 0 <= p < |s.pcs| && s.pcs[p].Checking? :: s.now - s.pcs[p].readAt <= delay)
  }

  /** The events lead from `s` to `t`, and every state on the way is timely. */
  ghost predicate Run(s: State, es: seq<Event>, t: State, hold: nat, delay: nat)
    decreases es
  {
    && Timely(s, hold, delay)
    && if es == [] then s == t else Enabled(s, es[0]) && Run(Next(s, es[0]), es[1..], t, hold, delay)
  }

  ghost predicate MutualExclusion(s: State) {
    forall p, q | 0 <= p < |s.pcs| && 0 <= q < |s.pcs| && s.pcs[p].Critical() && s.pcs[q].Critical() :: p == q
  }

  /** Nobody is about to remove a lock file it did not create. */
  ghost predicate NoTheft(s: State) {
    && (forall p | 0 <= p < |s.pcs| :: !s.pcs[p].Unlinking?)
    && (forall p | 0 <= p < |s.pcs| && s.pcs[p].Holding? :: s.file == Some(LockFile(p, s.pcs[p].stamp, true)))
  }

  ghost predicate Inv(s: State, hold: nat) {
    && (s.file.Some? ==>
          var f := s.file.value;
          f.owner < |s.pcs| && s.pcs[f.owner] == (if f.written then Holding(f.stamp) else Writing(f.stamp)))
    && (forall p | 0 <= p < |s.pcs| :: s.pcs[p].Critical() ==> s.file.Some? && s.file.value.owner == p)
    && (forall p | 0 <= p < |s.pcs| :: !s.pcs[p].Unlinking?)
    && (forall p | 0 <= p < |s.pcs| :: s.pcs[p].Checking? && s.pcs[p].seen.Some? ==>
          s.pcs[p].readAt - s.pcs[p].seen.value <= hold)
  }

  lemma {:induction false} StepKeepsInv(s: State, e: Event, hold: nat, delay: nat)
    requires hold + delay <= LOCK_STALE_MS
    requires Inv(s, hold) && Timely(s, hold, delay) && Enabled(s, e)
    ensures Inv(Next(s, e), hold)
  {
    if e.Check? {
      assert s.now - s.pcs[e.p].readAt <= delay;
    }
  }

  lemma {:induction false} RunKeepsInv(s: State, es: seq<Event>, t: State, hold: nat, delay: nat)
    requires hold + delay <= LOCK_STALE_MS
    requires Inv(s, hold) && Run(s, es, t, hold, delay)
    ensures Inv(t, hold)
    decreases es
  {
    if es != [] {
      StepKeepsInv(s, es[0], hold, delay);
      RunKeepsInv(Next(s, es[0]), es[1..], t, hold, delay);
    }
  }

  /** Within the timing bounds the stale branch is never taken, at most one process
      holds the lock, and whoever holds it owns the file its release will unlink. */
  lemma {:induction false} TimedMutualExclusion(processes: nat, es: seq<Event>, t: State, hold: nat, delay: nat)
    requires hold + delay <= 30000
    requires Run(Init(processes), es, t, hold, delay)
    ensures MutualExclusion(t) && NoTheft(t)
  {
    RunKeepsInv(Init(processes), es, t, hold, delay);
  }

  /** Every run within the bounds, with any number of processes, is mutually exclusive. */
  ghost predicate AlwaysExclusive(hold: nat, delay: nat) {
    forall processes: nat, es: seq<Event>, t: State | Run(Init(processes), es, t, hold, delay) :: MutualExclusion(t)
  }

  lemma {:induction false} Extend(s: State, es: seq<Event>, t: State, e: Event, u: State, hold: nat, delay: nat)
    returns (longer: seq<Event>)
    requires Run(s, es, t, hold, delay)
    requires Enabled(t, e) && u == Next(t, e) && Timely(u, hold, delay)
    ensures longer == es + [e] && Run(s, longer, u, hold, delay)
    decreases es
  {
    longer := es + [e];
    if es != [] {
      var rest := Extend(Next(s, es[0]), es[1..], t, e, u, hold, delay);
      assert longer[1..] == rest;
    } else {
      assert longer[1..] == [];
    }
  }

  /** Process 0 of two takes the lock while process 1 is about to try. */
  lemma {:induction false} FirstAcquires(hold: nat, delay: nat) returns (es: seq<Event>)
    ensures Run(Init(2), es, State(0, Some(LockFile(0, 0, true)), [Holding(0), Trying(0)]), hold, delay)
  {
    var s := Init(2);
    var file := Some(LockFile(0, 0, true));
    es := Extend(s, [], State(0, None, [Idle, Idle]), Begin(0), State(0, None, [Trying(0), Idle]), hold, delay);
    es := Extend(s, es, State(0, None, [Trying(0), Idle]), Begin(1),
                 State(0, None, [Trying(0), Trying(0)]), hold, delay);
    es := Extend(s, es, State(0, None, [Trying(0), Trying(0)]), Stamp(0),
                 State(0, None, [Creating(0, 0), Trying(0)]), hold, delay);
    es := Extend(s, es, State(0, None, [Creating(0, 0), Trying(0)]), Create(0),
                 State(0, Some(LockFile(0, 0, false)), [Writing(0), Trying(0)]), hold, delay);
    es := Extend(s, es, State(0, Some(LockFile(0, 0, false)), [Writing(0), Trying(0)]), Write(0),
                 State(0, file, [Holding(0), Trying(0)]), hold, delay);
  }

  /** Process 1 of two finds the lock taken and reads its stamp `hold` ms later. */
  lemma {:induction false} LateRead(hold: nat, delay: nat) returns (es: seq<Event>, t: State)
    ensures Run(Init(2), es, t, hold, delay)
    ensures t == State(hold, Some(LockFile(0, 0, true)), [Holding(0), Checking(0, Some(0), hold)])
  {
    var s := Init(2);
    var file := Some(LockFile(0, 0, true));
    es := FirstAcquires(hold, delay);
    es := Extend(s, es, State(0, file, [Holding(0), Trying(0)]), Stamp(1),
                 State(0, file, [Holding(0), Creating(0, 0)]), hold, delay);
    es := Extend(s, es, State(0, file, [Holding(0), Creating(0, 0)]), Create(1),
                 State(0, file, [Holding(0), Reading(0)]), hold, delay);
    es := Extend(s, es, State(0, file, [Holding(0), Reading(0)]), Tick(hold),
                 State(hold, file, [Holding(0), Reading(0)]), hold, delay);
    t := State(hold, file, [Holding(0), Checking(0, Some(0), hold)]);
    es := Extend(s, es, State(hold, file, [Holding(0), Reading(0)]), Read(1), t, hold, delay);
  }

  /** Process 0 then releases, and process 1 evaluates the staleness of what it read `delay` ms later. */
  lemma {:induction false} LateCheck(hold: nat, delay: nat) returns (es: seq<Event>, t: State)
    requires hold + delay > LOCK_STALE_MS
    ensures Run(Init(2), es, t, hold, delay)
    ensures t == State(hold + delay, None, [Trying(0), Unlinking(0)])
  {
    var s := Init(2);
    var check := Checking(0, Some(0), hold);
    es, t := LateRead(hold, delay);
    es := Extend(s, es, t, Release(0), State(hold, None, [Idle, check]), hold, delay);
    es := Extend(s, es, State(hold, None, [Idle, check]), Begin(0), State(hold, None, [Trying(0), check]), hold, delay);
    es := Extend(s, es, State(hold, None, [Trying(0), check]), Tick(delay),
                 State(hold + delay, None, [Trying(0), check]), hold, delay);
    t := State(hold + delay, None, [Trying(0), Unlinking(0)]);
    es := Extend(s, es, State(hold + delay, None, [Trying(0), check]), Check(1), t, hold, delay);
  }

  /** Process 0 retakes the free lock before process 1 unlinks what it saw as stale. */
  lemma {:induction false} Retaken(hold: nat, delay: nat) returns (es: seq<Event>, t: State)
    requires hold + delay > LOCK_STALE_MS
    ensures var now := hold + delay;
            && Run(Init(2), es, t, hold, delay)
            && t == State(now, Some(LockFile(0, now, true)), [Holding(now), Unlinking(0)])
  {
    var s, now := Init(2), hold + delay;
    es, t := LateCheck(hold, delay);
    es := Extend(s, es, t, Stamp(0), State(now, None, [Creating(0, now), Unlinking(0)]), hold, delay);
    es := Extend(s, es, State(now, None, [Creating(0, now), Unlinking(0)]), Create(0),
                 State(now, Some(LockFile(0, now, false)), [Writing(now), Unlinking(0)]), hold, delay);
    t := State(now, Some(LockFile(0, now, true)), [Holding(now), Unlinking(0)]);
    es := Extend(s, es, State(now, Some(LockFile(0, now, false)), [Writing(now), Unlinking(0)]), Write(0),
                 t, hold, delay);
  }

  /** Beyond the bound, two processes suffice: process 0 has retaken the lock when process 1
      unlinks the file it saw as stale, and process 1 then creates its own. */
  lemma {:induction false} LateCheckBreaksExclusion(hold: nat, delay: nat) returns (es: seq<Event>, t: State)
    requires hold + delay > LOCK_STALE_MS
    ensures Run(Init(2), es, t, hold, delay)
    ensures !MutualExclusion(t)
  {
    var s, now := Init(2), hold + delay;
    es, t := Retaken(hold, delay);
    es := Extend(s, es, t, Unlink(1), State(now, None, [Holding(now), Trying(1)]), hold, delay);
    es := Extend(s, es, State(now, None, [Holding(now), Trying(1)]), Stamp(1),
                 State(now, None, [Holding(now), Creating(1, now)]), hold, delay);
    t := State(now, Some(LockFile(1, now, false)), [Holding(now), Writing(now)]);
    es := Extend(s, es, State(now, None, [Holding(now), Creating(1, now)]), Create(1), t, hold, delay);
    assert t.pcs[0].Critical() && t.pcs[1].Critical();
  }

  /** The exact condition: the protocol is mutually exclusive on all timely runs if and only if
      the two bounds together stay within the staleness limit. */
  lemma {:induction false} ExclusiveIffWithinStaleLimit(hold: nat, delay: nat)
    ensures AlwaysExclusive(hold, delay) <==> hold + delay <= 30000
  {
    if hold + delay <= LOCK_STALE_MS {
      forall processes: nat, es: seq<Event>, t: State | Run(Init(processes), es, t, hold, delay)
        ensures MutualExclusion(t)
      {
        TimedMutualExclusion(processes, es, t, hold, delay);
      }
    } else {
      var es, t := LateCheckBreaksExclusion(hold, delay);
    }
  }

  // ---------- what the retry loop achieves ----------

  predicate WithinAttempts(pc: Pc) {
    match pc
    case Trying(attempt) => attempt < MAX_RETRIES
    case Creating(attempt, _) => attempt < MAX_RETRIES
    case Reading(attempt) => attempt < MAX_RETRIES
    case Checking(attempt, _, _) => attempt < MAX_RETRIES
    case Unlinking(attempt) => attempt < MAX_RETRIES
    case Sleeping(attempt) => attempt < MAX_RETRIES
    case _ => true
  }

  /** On every run, however the others interfere, no process makes more than ten attempts. */
  lemma {:induction false} AttemptsAreBounded(s: State, es: seq<Event>, t: State, hold: nat, delay: nat)
    requires Run(s, es, t, hold, delay) && forall p | 0 <= p < |s.pcs| :: WithinAttempts(s.pcs[p])
    ensures forall p | 0 <= p < |t.pcs| :: WithinAttempts(t.pcs[p])
    decreases es
  {
    if es != [] {
      AttemptsAreBounded(Next(s, es[0]), es[1..], t, hold, delay);
    }
  }

  /** One process's attempt on a lock file that stays as it is: create, read and check. */
  function Attempt(s: State, p: nat): State
    requires p < |s.pcs| && s.pcs[p].Trying? && s.file.Some?
  {
    var stamped := Next(s, Stamp(p));
    var refused := Next(stamped, Create(p));
    var seen := Next(refused, Read(p));
    Next(seen, Check(p))
  }

  /** Undisturbed, an attempt on another's lock unlinks it exactly when its stamp is older than the limit, and
      the next one makes its own; until then nothing is touched. */
  lemma DeadHolderIsReplacedIffStale(s: State, p: nat)
    requires p < |s.pcs| && s.pcs[p].Trying? && s.pcs[p].attempt + 1 < MAX_RETRIES
    requires s.file.Some? && s.file.value.owner != p && s.file.value.written
    ensures var t := Attempt(s, p);
            if s.now - s.file.value.stamp <= LOCK_STALE_MS
            then t == Move(s, p, Sleeping(s.pcs[p].attempt))
            else t.pcs[p].Unlinking?
                 && Next(Next(Next(Next(t, Unlink(p)), Stamp(p)), Create(p)), Write(p))
                    == Move(s, p, Holding(s.now)).(file := Some(LockFile(p, s.now, true)))
  {
    var t := Attempt(s, p);
    if s.now - s.file.value.stamp > LOCK_STALE_MS {
      var freed := Next(t, Unlink(p));
      var mine := Next(Next(freed, Stamp(p)), Create(p));
      assert mine.file == Some(LockFile(p, s.now, false));
      assert Next(mine, Write(p)).pcs == s.pcs[p := Holding(s.now)];
    } else {
      assert t.pcs == s.pcs[p := Sleeping(s.pcs[p].attempt)];
    }
  }

  /** Any interleaving, without timing bounds. */
  ghost predicate Steps(s: State, es: seq<Event>, t: State)
    decreases es
  {
    if es == [] then s == t else Enabled(s, es[0]) && Steps(Next(s, es[0]), es[1..], t)
  }

  /** A complete lock file that nobody is about to remove: no other process believes to hold the lock, is
      unlinking, or still weighs the stamp of an earlier file. */
  ghost predicate LeftBehind(s: State, f: LockFile) {
    && s.file == Some(f) && f.written
    && forall p | 0 <= p < |s.pcs| && p != f.owner ::
         && !s.pcs[p].Critical() && !s.pcs[p].Unlinking?
         && (s.pcs[p].Checking? && s.pcs[p].seen.Some? ==> s.pcs[p].seen.value >= f.stamp)
  }

  predicate ByOthers(e: Event, owner: nat) { e.Tick? || e.p != owner }

  lemma {:induction false} FreshLockStays(s: State, f: LockFile, es: seq<Event>, t: State)
    requires LeftBehind(s, f) && Steps(s, es, t) && forall e | e in es :: ByOthers(e, f.owner)
    ensures t.now >= s.now
    ensures t.now - f.stamp <= LOCK_STALE_MS ==> LeftBehind(t, f)
    decreases es
  {
    if es != [] {
      var e, u := es[0], Next(s, es[0]);
      assert ByOthers(e, f.owner);
      StepsKeepClock(u, es[1..], t);
      if t.now - f.stamp <= LOCK_STALE_MS {
        FreshLockSurvivesStep(s, f, e);
        FreshLockStays(u, f, es[1..], t);
      }
    }
  }

  lemma FreshLockSurvivesStep(s: State, f: LockFile, e: Event)
    requires LeftBehind(s, f) && Enabled(s, e) && ByOthers(e, f.owner) && s.now - f.stamp <= LOCK_STALE_MS
    ensures LeftBehind(Next(s, e), f)
  {
  }

  lemma {:induction false} StepsKeepClock(s: State, es: seq<Event>, t: State)
    requires Steps(s, es, t)
    ensures t.now >= s.now
    decreases es
  {
    if es != [] {
      StepsKeepClock(Next(s, es[0]), es[1..], t);
    }
  }

  lemma {:induction false} StepsExtend(s: State, es: seq<Event>, t: State, e: Event)
    requires Steps(s, es, t) && Enabled(t, e)
    ensures Steps(s, es + [e], Next(t, e))
    decreases es
  {
    if es != [] {
      StepsExtend(Next(s, es[0]), es[1..], t, e);
      assert (es + [e])[1..] == es[1..] + [e];
    } else {
      assert ([] + [e])[1..] == [];
    }
  }

  lemma Waited(s: State, f: LockFile, p: nat, time: int) returns (es: seq<Event>, t: State)
    requires s.file == Some(f) && p < |s.pcs| && s.pcs[p].Idle? && time >= s.now
    ensures Steps(s, es, t) && t == s.(now := time, pcs := s.pcs[p := Trying(0)])
    ensures es == [Tick(time - s.now), Begin(p)]
  {
    var ticked := Next(s, Tick(time - s.now));
    t := Next(ticked, Begin(p));
    es := [Tick(time - s.now), Begin(p)];
    assert Steps(t, [], t);
    assert es[1..] == [Begin(p)] && es[1..][1..] == [];
    assert Steps(ticked, es[1..], t);
  }

  /** After waiting beyond the limit, an idle process removes the lock left behind. */
  lemma {:induction false} StaleLockGoes(s: State, f: LockFile, p: nat, time: int) returns (es: seq<Event>, t: State)
    requires LeftBehind(s, f) && p < |s.pcs| && p != f.owner && s.pcs[p].Idle?
    requires time >= s.now && time - f.stamp > LOCK_STALE_MS
    ensures Steps(s, es, t) && (forall e | e in es :: ByOthers(e, f.owner)) && t.now == time && t.file == None
  {
    var u;
    es, u := Waited(s, f, p, time);
    DeadHolderIsReplacedIffStale(u, p);
    var stamped := Next(u, Stamp(p));
    var refused := Next(stamped, Create(p));
    var seen := Next(refused, Read(p));
    StepsExtend(s, es, u, Stamp(p));
    StepsExtend(s, es + [Stamp(p)], stamped, Create(p));
    StepsExtend(s, es + [Stamp(p)] + [Create(p)], refused, Read(p));
    StepsExtend(s, es + [Stamp(p)] + [Create(p)] + [Read(p)], seen, Check(p));
    var checked := Attempt(u, p);
    StepsExtend(s, es + [Stamp(p)] + [Create(p)] + [Read(p)] + [Check(p)], checked, Unlink(p));
    es := es + [Stamp(p)] + [Create(p)] + [Read(p)] + [Check(p)] + [Unlink(p)];
    t := Next(checked, Unlink(p));
  }

  /** However the processes other than its owner interleave, the lock is in place as long as the clock has not
      passed `time`. */
  ghost predicate KeptUntil(s: State, f: LockFile, time: int) {
    forall es: seq<Event>, t: State |
      Steps(s, es, t) && (forall e | e in es :: ByOthers(e, f.owner)) && t.now <= time :: t.file == Some(f)
  }

  /** The lock of a holder that died survives every interleaving of all other processes up to a time if and only if its
      stamp is not older than the staleness limit by then; afterwards any idle process can take it over. */
  lemma LockLeftBehindIsKeptIff(s: State, f: LockFile, p: nat, time: int)
    requires LeftBehind(s, f) && p < |s.pcs| && p != f.owner && s.pcs[p].Idle? && time >= s.now
    ensures KeptUntil(s, f, time) <==> time - f.stamp <= 30000
  {
    if time - f.stamp <= LOCK_STALE_MS {
      forall es: seq<Event>, t: State |
        Steps(s, es, t) && (forall e | e in es :: ByOthers(e, f.owner)) && t.now <= time
        ensures t.file == Some(f)
      {
        FreshLockStays(s, f, es, t);
      }
    } else {
      var es, t := StaleLockGoes(s, f, p, time);
    }
  }

  /** The lock of a holder that dies between creating the file and writing its stamp is never taken over: whatever
      the others do and however long they wait, the file stays. */
  lemma {:induction false} DeathBeforeStampBlocksForever(s: State, f: LockFile, es: seq<Event>, t: State)
    requires s.file == Some(f) && !f.written && NoOthersRemove(s, f.owner)
    requires Steps(s, es, t) && forall e | e in es :: ByOthers(e, f.owner)
    ensures t.file == Some(f)
    decreases es
  {
    if es != [] {
      assert ByOthers(es[0], f.owner);
      DeathBeforeStampBlocksForever(Next(s, es[0]), f, es[1..], t);
    }
  }

  /** No process but the owner believes to hold the lock, is unlinking, or has read a stamp. */
  ghost predicate NoOthersRemove(s: State, owner: nat) {
    forall p | 0 <= p < |s.pcs| && p != owner ::
      !s.pcs[p].Critical() && !s.pcs[p].Unlinking? && (s.pcs[p].Checking? ==> s.pcs[p].seen.None?)
  }

  // ---------- how often acquire() tries ----------

  /** The exclusive creates a process attempts in a run. */
  function Creates(es: seq<Event>, p: nat): nat {
    if es == [] then 0 else (if es[0] == Create(p) then 1 else 0) + Creates(es[1..], p)
  }

  /** The process's own acquire() goes on: it is not called again, fails on another error or gets the lock. */
  predicate GoesOn(e: Event, p: nat) { e != Begin(p) && e != CreateError(p) && e != Release(p) }

  /** How many creates a process without the lock has attempted by its place in the loop. */
  function Tried(pc: Pc): nat {
    match pc
    case Trying(attempt) => attempt
    case Creating(attempt, _) => attempt
    case Reading(attempt) => attempt + 1
    case Checking(attempt, _, _) => attempt + 1
    case Unlinking(attempt) => attempt + 1
    case Sleeping(attempt) => attempt + 1
    case _ => MAX_RETRIES
  }

  lemma StepTries(s: State, e: Event, p: nat)
    requires Enabled(s, e) && p < |s.pcs| && GoesOn(e, p) && WithinAttempts(s.pcs[p]) && !s.pcs[p].Critical()
    ensures var pc := Next(s, e).pcs[p];
            WithinAttempts(pc) && (pc.Critical() || Tried(pc) == Tried(s.pcs[p]) + if e == Create(p) then 1 else 0)
    ensures s.pcs[p].Idle? ==> Next(s, e).pcs[p].Idle?
  {
  }

  lemma StaysCritical(s: State, e: Event, p: nat)
    requires Enabled(s, e) && p < |s.pcs| && GoesOn(e, p) && s.pcs[p].Critical()
    ensures Next(s, e).pcs[p].Critical()
  {
  }

  lemma {:induction false} TriesAddUp(s: State, es: seq<Event>, t: State, p: nat)
    requires Steps(s, es, t) && p < |s.pcs| && (forall e | e in es :: GoesOn(e, p))
    requires s.pcs[p].Critical() || WithinAttempts(s.pcs[p])
    ensures p < |t.pcs|
    ensures s.pcs[p].Critical() ==> t.pcs[p].Critical()
    ensures !t.pcs[p].Critical() ==> Tried(t.pcs[p]) == Tried(s.pcs[p]) + Creates(es, p)
    decreases es
  {
    if es != [] {
      var e := es[0];
      assert GoesOn(e, p);
      if s.pcs[p].Critical() { StaysCritical(s, e, p); } else { StepTries(s, e, p); }
      TriesAddUp(Next(s, e), es[1..], t, p);
    }
  }

  /** Under every interleaving, an acquire() that ends without the lock and without another error has attempted
      exactly ten creates. */
  lemma GivesUpAfterTen(s: State, es: seq<Event>, t: State, p: nat)
    requires p < |s.pcs| && Enabled(s, Begin(p)) && Steps(Next(s, Begin(p)), es, t)
    requires (forall e | e in es :: GoesOn(e, p)) && p < |t.pcs| && t.pcs[p].Idle?
    ensures Creates(es, p) == 10
  {
    TriesAddUp(Next(s, Begin(p)), es, t, p);
  }

  /** A process that waited for a busy lock and has attempts left takes the lock once it is free, by its own steps,
      and gives it back with the file gone. */
  lemma FreeLockIsTakenAfterWaiting(s: State, p: nat)
    requires p < |s.pcs| && s.file == None && s.pcs[p].Sleeping? && s.pcs[p].attempt + 1 < 10
    ensures Enabled(s, Wake(p)) && Enabled(Next(s, Wake(p)), Stamp(p))
    ensures var stamped := Next(Next(s, Wake(p)), Stamp(p));
            && Enabled(stamped, Create(p)) && Enabled(Next(stamped, Create(p)), Write(p))
            && var held := Next(Next(stamped, Create(p)), Write(p));
               && held == Move(s, p, Holding(s.now)).(file := Some(LockFile(p, s.now, true)))
               && Enabled(held, Release(p)) && Next(held, Release(p)) == Move(s, p, Idle)
  {
    var stamped := Next(Next(s, Wake(p)), Stamp(p));
    var held := Next(Next(stamped, Create(p)), Write(p));
    assert held.pcs == s.pcs[p := Holding(s.now)];
    assert Next(held, Release(p)).pcs == s.pcs[p := Idle];
  }

  /** And a busy lock with a fresh stamp makes the process wait, wherever it is in its ten attempts. */
  lemma BusyLockMakesWait(s: State, p: nat)
    requires p < |s.pcs| && s.pcs[p].Trying? && s.file.Some? && s.file.value.owner != p
    requires s.file.value.written ==> s.now - s.file.value.stamp <= 30000
    ensures Attempt(s, p) == Move(s, p, Sleeping(s.pcs[p].attempt))
  {
    assert Attempt(s, p).pcs == s.pcs[p := Sleeping(s.pcs[p].attempt)];
  }
}
