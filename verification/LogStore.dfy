/** The sequenced log table: numbering, batches, expiry, reopening and paging. */
module LogStore {
  import opened Common

  datatype Log = Log(instance: string, process: string, level: string, message: string, stream: string,
      source: Option<string>)

  datatype Row = Row(sequence: nat, time: int, log: Log)

  /** How one insert would end, when the numbering is no obstacle. */
  datatype Outcome = Works | Fails

  datatype Attempt = Attempt(log: Log, now: int, outcome: Outcome)

  /** A transaction: it may fail to begin, at any of its inserts, or to commit. */
  datatype Batch = Batch(begin: Outcome, attempts: seq<Attempt>, commit: Outcome)

  datatype Table = Table(rows: seq<Row>, counter: nat)

  /** The empty string is stored as no source at all. */
  function Inserted(sequence: nat, a: Attempt): Row {
    Row(sequence, a.now, if a.log.source == Some("") then a.log.(source := None) else a.log)
  }

  /** The UNIQUE constraint on the sequence column. */
  predicate Taken(rows: seq<Row>, sequence: nat) {
    exists i | 0 <= i < |rows| :: rows[i].sequence == sequence
  }

  /** The highest number present, 0 when there is none. */
  function MaxSequence(rows: seq<Row>): (max: nat)
    ensures forall i | 0 <= i < |rows| :: rows[i].sequence <= max
    ensures max == 0 || Taken(rows, max)
  {
    if rows == [] then 0
    else
      var max := MaxSequence(rows[..|rows| - 1]);
      if rows[|rows| - 1].sequence > max then rows[|rows| - 1].sequence else max
  }

  predicate Matches(row: Row, instance: string) { row.log.instance == instance }

  /** The rows of one instance, in insertion order. */
  function Of(rows: seq<Row>, instance: string): seq<Row> {
    if rows == [] then []
    else
      var before := Of(rows[..|rows| - 1], instance);
      if Matches(rows[|rows| - 1], instance) then before + [rows[|rows| - 1]] else before
  }

  function Without(rows: seq<Row>, instance: string): seq<Row> {
    if rows == [] then []
    else
      var before := Without(rows[..|rows| - 1], instance);
      if Matches(rows[|rows| - 1], instance) then before else before + [rows[|rows| - 1]]
  }

  function Since(rows: seq<Row>, cutoff: int): seq<Row> {
    if rows == [] then []
    else
      var before := Since(rows[..|rows| - 1], cutoff);
      if rows[|rows| - 1].time < cutoff then before else before + [rows[|rows| - 1]]
  }

  // ---------- what the operations do ----------

  /** Consecutive numbers from `first`, one row per attempt. */
  function Numbered(first: nat, attempts: seq<Attempt>): seq<Row> {
    if attempts == [] then []
    else
      var n := |attempts| - 1;
      Numbered(first, attempts[..n]) + [Inserted(first + n, attempts[n])]
  }

  function Numbers(first: nat, n: nat): seq<nat> { seq(n, i requires 0 <= i => first + i) }

  function FirstFailure(attempts: seq<Attempt>): (k: nat)
    ensures k <= |attempts|
    ensures forall i | 0 <= i < k :: attempts[i].outcome.Works?
    ensures k < |attempts| ==> attempts[k].outcome.Fails?
  {
    if attempts == [] || attempts[0].outcome.Fails? then 0 else 1 + FirstFailure(attempts[1..])
  }

  predicate AllWork(attempts: seq<Attempt>) { forall i | 0 <= i < |attempts| :: attempts[i].outcome.Works? }

  /** Every insert of the batch works, and so do its begin and commit. */
  predicate Commits(b: Batch) { b.begin.Works? && b.commit.Works? && AllWork(b.attempts) }

  /** A failed insert still uses up its number; the ones after it are not reached. */
  function Tried(attempts: seq<Attempt>): nat {
    var k := FirstFailure(attempts);
    if k < |attempts| then k + 1 else k
  }

  function NumbersUsed(b: Batch): nat { if b.begin.Fails? then 0 else Tried(b.attempts) }

  /** In insertion order the numbers increase, and the counter is above them all. */
  ghost predicate Sound(t: Table) { t.counter >= 1 && IncreasingBelow(t.rows, t.counter) }

  ghost predicate IncreasingBelow(rows: seq<Row>, bound: nat) {
    rows == []
    || (1 <= rows[|rows| - 1].sequence < bound && IncreasingBelow(rows[..|rows| - 1], rows[|rows| - 1].sequence))
  }

  lemma {:induction false} IncreasingPairs(rows: seq<Row>, bound: nat)
    requires IncreasingBelow(rows, bound)
    ensures forall i | 0 <= i < |rows| :: 1 <= rows[i].sequence < bound
    ensures forall i, j | 0 <= i < j < |rows| :: rows[i].sequence < rows[j].sequence
  {
    if rows != [] {
      IncreasingPairs(rows[..|rows| - 1], rows[|rows| - 1].sequence);
    }
  }

  lemma IncreasingSnoc(rows: seq<Row>, row: Row, bound: nat)
    requires IncreasingBelow(rows, row.sequence) && 1 <= row.sequence < bound
    ensures IncreasingBelow(rows + [row], bound)
  {
    assert (rows + [row])[..|rows|] == rows;
  }

  lemma {:induction false} OfExactly(rows: seq<Row>, instance: string, row: Row)
    ensures multiset(Of(rows, instance))[row] == if row.log.instance == instance then multiset(rows)[row] else 0
    ensures multiset(Without(rows, instance))[row] == if row.log.instance == instance then 0 else multiset(rows)[row]
  {
    if rows != [] {
      OfExactly(rows[..|rows| - 1], instance, row);
      assert rows == rows[..|rows| - 1] + [rows[|rows| - 1]];
    }
  }

  /** Expiry removes the rows older than the cutoff and no others. */
  lemma {:induction false} SinceExactly(rows: seq<Row>, cutoff: int, row: Row)
    ensures multiset(Since(rows, cutoff))[row] == if row.time >= cutoff then multiset(rows)[row] else 0
  {
    if rows != [] {
      SinceExactly(rows[..|rows| - 1], cutoff, row);
      assert rows == rows[..|rows| - 1] + [rows[|rows| - 1]];
    }
  }

  lemma {:induction false} NumberedAt(first: nat, attempts: seq<Attempt>, i: nat)
    requires i < |attempts|
    ensures |Numbered(first, attempts)| == |attempts|
    ensures var row := Numbered(first, attempts)[i]; row.sequence == first + i && row.time == attempts[i].now
  {
    var n := |attempts| - 1;
    if n > 0 { NumberedAt(first, attempts[..n], if i < n then i else 0); }
  }

  class LogStorage {
    var rows: seq<Row>
    var sequenceCounter: nat

    function View(): Table
      reads this
    {
      Table(rows, sequenceCounter)
    }

    /** Opening continues from the highest number in the file. */
    constructor (file: seq<Row>)
      ensures View() == Reopened(file)
    {
      rows, sequenceCounter := file, MaxSequence(file) + 1;
    }

    method StoreLog(a: Attempt) returns (result: Option<nat>)
      modifies this
      ensures View() == Step(old(View()), StoreCall(a))
      ensures result == if rows == old(rows) then None else Some(old(sequenceCounter))
    {
      var sequence := sequenceCounter;
      sequenceCounter := sequenceCounter + 1;
      if a.outcome.Fails? || Taken(rows, sequence) { return None; }
      rows := rows + [Inserted(sequence, a)];
      return Some(sequence);
    }

    /** All or nothing: either every log gets the next number in turn, or the rows stay as they were. */
    method StoreLogs(b: Batch) returns (result: Option<seq<nat>>)
      requires Sound(View())
      modifies this
      ensures result == if Commits(b) then Some(Numbers(old(sequenceCounter), |b.attempts|)) else None
      ensures View() == Step(old(View()), BatchCall(b))
      ensures result.Some?
              <==> b.begin == Works && b.commit == Works && forall a | a in b.attempts :: a.outcome == Works
    {
      if b.begin.Fails? { return None; }
      var before := rows;
      result := InsertEach(b.attempts);
      if result.None? || b.commit.Fails? {
        rows := before;
        return None;
      }
    }

    /** The body of the transaction: it stops at the first insert that fails. */
    method InsertEach(attempts: seq<Attempt>) returns (result: Option<seq<nat>>)
      requires Sound(View())
      modifies this
      ensures result == if AllWork(attempts) then Some(Numbers(old(sequenceCounter), |attempts|)) else None
      ensures result.Some? ==> rows == old(rows) + Numbered(old(sequenceCounter), attempts)
      ensures sequenceCounter == old(sequenceCounter) + Tried(attempts)
    {
      var sequences := [];
      var i := 0;
      while i < |attempts|
        invariant 0 <= i <= FirstFailure(attempts)
        invariant sequenceCounter == old(sequenceCounter) + i
        invariant sequences == Numbers(old(sequenceCounter), i)
        invariant rows == old(rows) + Numbered(old(sequenceCounter), attempts[..i])
      {
        NextNumber(old(View()), attempts, i);
        NumbersSnoc(old(sequenceCounter), i);
        Associate(old(rows), Numbered(old(sequenceCounter), attempts[..i]),
                  Inserted(old(sequenceCounter) + i, attempts[i]));
        var one := StoreLog(attempts[i]);
        if one.None? { return None; }
        sequences := sequences + [one.value];
        i := i + 1;
      }
      assert attempts[..i] == attempts;
      return Some(sequences);
    }

    method ClearLogs(instance: string, outcome: Outcome) returns (cleared: Option<nat>)
      modifies `rows
      ensures cleared == if outcome.Works? then Some(|Of(old(rows), instance)|) else None
      ensures View() == Step(old(View()), ClearCall(instance, outcome))
    {
      if outcome.Fails? { return None; }
      cleared := Some(|Of(rows, instance)|);
      rows := Without(rows, instance);
    }

    /** `cutoff` is the current time less the retention period. */
    method CleanupOldLogs(cutoff: int, outcome: Outcome) returns (removed: Option<nat>)
      modifies `rows
      ensures removed == if outcome.Works? then Some(|old(rows)| - |Since(old(rows), cutoff)|) else None
      ensures View() == Step(old(View()), CleanupCall(cutoff, outcome))
    {
      if outcome.Fails? { return None; }
      var kept := Since(rows, cutoff);
      SinceIsNoLonger(rows, cutoff);
      removed := Some(|rows| - |kept|);
      rows := kept;
    }
  }

  function Reopened(file: seq<Row>): Table { Table(file, MaxSequence(file) + 1) }

  // ---------- numbering keeps sound ----------

  lemma {:induction false} NumberedIncreases(t: Table, attempts: seq<Attempt>)
    requires Sound(t)
    ensures IncreasingBelow(t.rows + Numbered(t.counter, attempts), t.counter + |attempts|)
  {
    if attempts == [] {
      assert t.rows + [] == t.rows;
    } else {
      var n := |attempts| - 1;
      NumberedIncreases(t, attempts[..n]);
      SnocIncreases(t.rows, Numbered(t.counter, attempts[..n]), Inserted(t.counter + n, attempts[n]),
                    t.counter + n + 1);
    }
  }

  lemma SnocIncreases(rows: seq<Row>, more: seq<Row>, row: Row, bound: nat)
    requires IncreasingBelow(rows + more, row.sequence) && 1 <= row.sequence < bound
    ensures IncreasingBelow(rows + (more + [row]), bound)
  {
    IncreasingSnoc(rows + more, row, bound);
    assert rows + (more + [row]) == (rows + more) + [row];
  }

  /** While the table is sound the next number is free, so the UNIQUE constraint never fires. */
  lemma NumberedIsSound(t: Table, attempts: seq<Attempt>)
    requires Sound(t)
    ensures Sound(Table(t.rows + Numbered(t.counter, attempts), t.counter + |attempts|))
    ensures !Taken(t.rows + Numbered(t.counter, attempts), t.counter + |attempts|)
  {
    NumberedIncreases(t, attempts);
    BoundIsFree(t.rows + Numbered(t.counter, attempts), t.counter + |attempts|);
  }

  lemma BoundIsFree(rows: seq<Row>, bound: nat)
    requires IncreasingBelow(rows, bound)
    ensures !Taken(rows, bound)
  {
    IncreasingPairs(rows, bound);
  }

  lemma NumbersSnoc(first: nat, n: nat)
    ensures Numbers(first, n + 1) == Numbers(first, n) + [first + n]
  {
  }

  lemma Associate(a: seq<Row>, b: seq<Row>, row: Row)
    ensures a + b + [row] == a + (b + [row])
  {
  }

  lemma NextNumber(t: Table, attempts: seq<Attempt>, i: nat)
    requires Sound(t) && i < |attempts|
    ensures !Taken(t.rows + Numbered(t.counter, attempts[..i]), t.counter + i)
    ensures Numbered(t.counter, attempts[..i + 1])
            == Numbered(t.counter, attempts[..i]) + [Inserted(t.counter + i, attempts[i])]
  {
    assert attempts[..i + 1][..i] == attempts[..i];
    NumberedIsSound(t, attempts[..i]);
  }

  lemma {:induction false} WithoutStaysIncreasing(rows: seq<Row>, bound: nat, instance: string)
    requires IncreasingBelow(rows, bound)
    ensures IncreasingBelow(Without(rows, instance), bound)
  {
    if rows != [] {
      var front, last := rows[..|rows| - 1], rows[|rows| - 1];
      WithoutStaysIncreasing(front, last.sequence, instance);
      if Matches(last, instance) {
        RaiseBound(Without(front, instance), last.sequence, bound);
      } else {
        IncreasingSnoc(Without(front, instance), last, bound);
      }
    }
  }

  lemma {:induction false} SinceStaysIncreasing(rows: seq<Row>, bound: nat, cutoff: int)
    requires IncreasingBelow(rows, bound)
    ensures IncreasingBelow(Since(rows, cutoff), bound)
  {
    if rows != [] {
      var front, last := rows[..|rows| - 1], rows[|rows| - 1];
      SinceStaysIncreasing(front, last.sequence, cutoff);
      if last.time < cutoff {
        RaiseBound(Since(front, cutoff), last.sequence, bound);
      } else {
        IncreasingSnoc(Since(front, cutoff), last, bound);
      }
    }
  }

  lemma {:induction false} OfStaysIncreasing(rows: seq<Row>, bound: nat, instance: string)
    requires IncreasingBelow(rows, bound)
    ensures IncreasingBelow(Of(rows, instance), bound)
  {
    if rows != [] {
      var front, last := rows[..|rows| - 1], rows[|rows| - 1];
      OfStaysIncreasing(front, last.sequence, instance);
      if Matches(last, instance) {
        IncreasingSnoc(Of(front, instance), last, bound);
      } else {
        RaiseBound(Of(front, instance), last.sequence, bound);
      }
    }
  }

  lemma RaiseBound(rows: seq<Row>, low: nat, high: nat)
    requires IncreasingBelow(rows, low) && low <= high
    ensures IncreasingBelow(rows, high)
  {
  }

  lemma {:induction false} SinceIsNoLonger(rows: seq<Row>, cutoff: int)
    ensures |Since(rows, cutoff)| <= |rows|
  {
    if rows != [] {
      SinceIsNoLonger(rows[..|rows| - 1], cutoff);
    }
  }

  // ---------- all runs ----------

  datatype Call =
    | StoreCall(a: Attempt)
    | BatchCall(b: Batch)
    | ClearCall(instance: string, outcome: Outcome)
    | CleanupCall(cutoff: int, outcome: Outcome)
    | Reopen

  function Step(t: Table, call: Call): Table {
    match call
    case StoreCall(a) =>
      var stored := a.outcome.Works? && !Taken(t.rows, t.counter);
      Table(if stored then t.rows + [Inserted(t.counter, a)] else t.rows, t.counter + 1)
    case BatchCall(b) =>
      Table(if Commits(b) then t.rows + Numbered(t.counter, b.attempts) else t.rows, t.counter + NumbersUsed(b))
    case ClearCall(instance, outcome) => if outcome.Works? then t.(rows := Without(t.rows, instance)) else t
    case CleanupCall(cutoff, outcome) => if outcome.Works? then t.(rows := Since(t.rows, cutoff)) else t
    case Reopen => Reopened(t.rows)
  }

  function After(calls: seq<Call>): Table {
    if calls == [] then Table([], 1) else Step(After(calls[..|calls| - 1]), calls[|calls| - 1])
  }

  /** The numbers one call reports to its caller. */
  function Reported(t: Table, call: Call): seq<nat> {
    match call
    case StoreCall(a) => if a.outcome.Works? && !Taken(t.rows, t.counter) then [t.counter] else []
    case BatchCall(b) => if Commits(b) then Numbers(t.counter, |b.attempts|) else []
    case _ => []
  }

  /** All numbers reported since the last reopening. */
  function ReportedSinceOpen(calls: seq<Call>): seq<nat> {
    if calls == [] || calls[|calls| - 1].Reopen? then []
    else ReportedSinceOpen(calls[..|calls| - 1]) + Reported(After(calls[..|calls| - 1]), calls[|calls| - 1])
  }

  ghost predicate NumbersBelow(numbers: seq<nat>, bound: nat) {
    && (forall i | 0 <= i < |numbers| :: numbers[i] < bound)
    && (forall i, j | 0 <= i < j < |numbers| :: numbers[i] < numbers[j])
  }

  lemma OneIsNumbered(first: nat, a: Attempt)
    ensures Numbered(first, [a]) == [Inserted(first, a)]
  {
    assert Numbered(first, [a][..0]) == [];
  }

  lemma StoreStepIsSound(t: Table, call: Call)
    requires Sound(t) && (call.StoreCall? || call.BatchCall?)
    ensures Sound(Step(t, call)) && Step(t, call).counter >= t.counter + |Reported(t, call)|
  {
    var attempts := if call.StoreCall? then [call.a] else call.b.attempts;
    NumberedIsSound(t, attempts);
    if call.StoreCall? { OneIsNumbered(t.counter, call.a); }
    RaiseBound(t.rows, t.counter, Step(t, call).counter);
  }

  lemma DeleteStepIsSound(t: Table, call: Call)
    requires Sound(t) && (call.ClearCall? || call.CleanupCall?)
    ensures Sound(Step(t, call)) && Step(t, call).counter == t.counter
  {
    if call.ClearCall? {
      WithoutStaysIncreasing(t.rows, t.counter, call.instance);
    } else {
      SinceStaysIncreasing(t.rows, t.counter, call.cutoff);
    }
  }

  lemma StepIsSound(t: Table, call: Call)
    requires Sound(t)
    ensures Sound(Step(t, call))
    ensures !call.Reopen? ==> Step(t, call).counter >= t.counter + |Reported(t, call)|
  {
    if call.StoreCall? || call.BatchCall? {
      StoreStepIsSound(t, call);
    } else if !call.Reopen? {
      DeleteStepIsSound(t, call);
    } else {
      IncreasingPairs(t.rows, t.counter);
      TightBound(t.rows, t.counter, MaxSequence(t.rows) + 1);
    }
  }

  lemma TightBound(rows: seq<Row>, high: nat, low: nat)
    requires IncreasingBelow(rows, high) && forall i | 0 <= i < |rows| :: rows[i].sequence < low
    ensures IncreasingBelow(rows, low)
  {
  }

  lemma {:induction false} RunIsSound(calls: seq<Call>)
    ensures Sound(After(calls))
  {
    if calls != [] {
      RunIsSound(calls[..|calls| - 1]);
      StepIsSound(After(calls[..|calls| - 1]), calls[|calls| - 1]);
    }
  }

  lemma ReportedFrom(t: Table, call: Call)
    ensures Reported(t, call) == Numbers(t.counter, |Reported(t, call)|)
  {
  }

  lemma {:induction false} ReportedIncreases(calls: seq<Call>)
    ensures NumbersBelow(ReportedSinceOpen(calls), After(calls).counter)
  {
    if calls != [] && !calls[|calls| - 1].Reopen? {
      var front, last := calls[..|calls| - 1], calls[|calls| - 1];
      ReportedIncreases(front);
      RunIsSound(front);
      StepIsSound(After(front), last);
      ReportedFrom(After(front), last);
      AppendNumbers(ReportedSinceOpen(front), After(front).counter, |Reported(After(front), last)|,
          After(calls).counter);
    }
  }

  lemma AppendNumbers(numbers: seq<nat>, bound: nat, n: nat, high: nat)
    requires NumbersBelow(numbers, bound) && bound + n <= high
    ensures NumbersBelow(numbers + Numbers(bound, n), high)
  {
  }

  /** On every run, with failures anywhere: the numbers present are distinct, increasing in insertion
      order and below the counter; and no number is reported twice until the store is reopened. */
  lemma NumbersStayOrdered(calls: seq<Call>)
    ensures var t := After(calls);
            && (forall i | 0 <= i < |t.rows| :: 1 <= t.rows[i].sequence < t.counter)
            && (forall i, j | 0 <= i < j < |t.rows| :: t.rows[i].sequence < t.rows[j].sequence)
    ensures NumbersBelow(ReportedSinceOpen(calls), After(calls).counter)
  {
    RunIsSound(calls);
    ReportedIncreases(calls);
    IncreasingPairs(After(calls).rows, After(calls).counter);
  }

  /** Whatever happened before, a stored log's number is above every number then present. */
  lemma NewRowIsHighest(calls: seq<Call>, a: Attempt)
    requires a.outcome.Works?
    ensures var before, after := After(calls), Step(After(calls), StoreCall(a));
            && after.rows == before.rows + [Row(before.counter, a.now, Shown(a.log))]
            && (forall i | 0 <= i < |before.rows| :: before.rows[i].sequence < before.counter)
  {
    RunIsSound(calls);
    IncreasingPairs(After(calls).rows, After(calls).counter);
  }

  /** Reopening goes on where it stopped exactly when the last number used is still in the table;
      otherwise it hands that number out again. */
  lemma ReopeningReusesNumbersIffLastIsGone(calls: seq<Call>)
    ensures Step(After(calls), Reopen).counter <= After(calls).counter
    ensures Step(After(calls), Reopen).counter == After(calls).counter
            <==> After(calls).counter == 1 || Taken(After(calls).rows, After(calls).counter - 1)
  {
    RunIsSound(calls);
    MaxBelow(After(calls).rows, After(calls).counter);
  }

  lemma MaxBelow(rows: seq<Row>, bound: nat)
    requires bound >= 1 && IncreasingBelow(rows, bound)
    ensures MaxSequence(rows) + 1 <= bound
    ensures MaxSequence(rows) + 1 == bound <==> bound == 1 || Taken(rows, bound - 1)
  {
    IncreasingPairs(rows, bound);
    var max := MaxSequence(rows);
    if max > 0 {
      var i :| 0 <= i < |rows| && rows[i].sequence == max;
    }
  }

  // ---------- which logs are there ----------

  datatype Entry = Entry(time: int, log: Log)

  function Entries(rows: seq<Row>): seq<Entry> {
    seq(|rows|, i requires 0 <= i < |rows| => Entry(rows[i].time, rows[i].log))
  }

  /** The instance's logs that were stored, in order, leaving out those cleared or expired since. */
  function Kept(calls: seq<Call>, instance: string): seq<Entry> {
    if calls == [] then [] else KeptAfter(Kept(calls[..|calls| - 1], instance), calls[|calls| - 1], instance)
  }

  function KeptAfter(before: seq<Entry>, call: Call, instance: string): seq<Entry> {
    match call
    case StoreCall(a) => if a.outcome.Works? then before + Mine([a], instance) else before
    case BatchCall(b) => if Commits(b) then before + Mine(b.attempts, instance) else before
    case ClearCall(i, outcome) => if i == instance && outcome.Works? then [] else before
    case CleanupCall(cutoff, outcome) => if outcome.Works? then NotBefore(before, cutoff) else before
    case Reopen => before
  }

  /** What is kept of a log: everything, except that an empty source reads back as none. */
  function Shown(log: Log): Log {
    Log(log.instance, log.process, log.level, log.message, log.stream,
        if log.source == Some("") then None else log.source)
  }

  function Mine(attempts: seq<Attempt>, instance: string): seq<Entry> {
    if attempts == [] then []
    else
      var before, a := Mine(attempts[..|attempts| - 1], instance), attempts[|attempts| - 1];
      if a.log.instance == instance then before + [Entry(a.now, Shown(a.log))] else before
  }

  function NotBefore(entries: seq<Entry>, cutoff: int): seq<Entry> {
    if entries == [] then []
    else
      var before := NotBefore(entries[..|entries| - 1], cutoff);
      if entries[|entries| - 1].time < cutoff then before else before + [entries[|entries| - 1]]
  }

  lemma {:induction false} OfAppend(xs: seq<Row>, ys: seq<Row>, instance: string)
    ensures Of(xs + ys, instance) == Of(xs, instance) + Of(ys, instance)
  {
    if ys == [] {
      assert xs + ys == xs;
    } else {
      assert (xs + ys)[..|xs + ys| - 1] == xs + ys[..|ys| - 1];
      OfAppend(xs, ys[..|ys| - 1], instance);
    }
  }

  lemma EntriesAppend(xs: seq<Row>, ys: seq<Row>)
    ensures Entries(xs + ys) == Entries(xs) + Entries(ys)
  {
  }

  lemma {:induction false} NumberedEntries(first: nat, attempts: seq<Attempt>, instance: string)
    ensures Entries(Of(Numbered(first, attempts), instance)) == Mine(attempts, instance)
  {
    if attempts != [] {
      var n := |attempts| - 1;
      NumberedEntries(first, attempts[..n], instance);
      var rows, row := Numbered(first, attempts[..n]), Inserted(first + n, attempts[n]);
      assert (rows + [row])[..|rows|] == rows;
      EntriesAppend(Of(rows, instance), [row]);
    }
  }

  lemma {:induction false} WithoutKeepsOthers(rows: seq<Row>, cleared: string, instance: string)
    ensures Of(Without(rows, cleared), instance) == if cleared == instance then [] else Of(rows, instance)
  {
    if rows != [] {
      var front, last := rows[..|rows| - 1], rows[|rows| - 1];
      WithoutKeepsOthers(front, cleared, instance);
      assert (Without(front, cleared) + [last])[..|Without(front, cleared)|] == Without(front, cleared);
    }
  }

  lemma {:induction false} SinceEntries(rows: seq<Row>, cutoff: int, instance: string)
    ensures Entries(Of(Since(rows, cutoff), instance)) == NotBefore(Entries(Of(rows, instance)), cutoff)
  {
    if rows != [] {
      var front, last := rows[..|rows| - 1], rows[|rows| - 1];
      SinceEntries(front, cutoff, instance);
      var kept, mine := Since(front, cutoff), Of(front, instance);
      assert (kept + [last])[..|kept|] == kept;
      EntriesAppend(Of(kept, instance), [last]);
      EntriesAppend(mine, [last]);
      assert Entries(mine + [last])[..|mine|] == Entries(mine);
    }
  }

  lemma StoringAddsEntries(t: Table, attempts: seq<Attempt>, instance: string)
    ensures Entries(Of(t.rows + Numbered(t.counter, attempts), instance))
            == Entries(Of(t.rows, instance)) + Mine(attempts, instance)
  {
    OfAppend(t.rows, Numbered(t.counter, attempts), instance);
    EntriesAppend(Of(t.rows, instance), Of(Numbered(t.counter, attempts), instance));
    NumberedEntries(t.counter, attempts, instance);
  }

  lemma StepHolds(t: Table, call: Call, instance: string)
    requires Sound(t)
    ensures Entries(Of(Step(t, call).rows, instance)) == KeptAfter(Entries(Of(t.rows, instance)), call, instance)
  {
    match call {
      case StoreCall(a) =>
        BoundIsFree(t.rows, t.counter);
        OneIsNumbered(t.counter, a);
        StoringAddsEntries(t, [a], instance);
      case BatchCall(b) =>
        StoringAddsEntries(t, b.attempts, instance);
      case ClearCall(i, outcome) =>
        WithoutKeepsOthers(t.rows, i, instance);
      case CleanupCall(cutoff, outcome) =>
        SinceEntries(t.rows, cutoff, instance);
      case Reopen =>
    }
  }

  /** On every run the table holds exactly what was stored and not since cleared or expired: failed
      inserts, rolled-back batches, reopening and clearing other instances neither add nor lose a log. */
  lemma {:induction false} TableHoldsWhatWasStored(calls: seq<Call>, instance: string)
    ensures Entries(Of(After(calls).rows, instance)) == Kept(calls, instance)
  {
    if calls != [] {
      var front, last := calls[..|calls| - 1], calls[|calls| - 1];
      TableHoldsWhatWasStored(front, instance);
      RunIsSound(front);
      StepHolds(After(front), last, instance);
    }
  }

  // ---------- paging ----------

  datatype Page = Page(logs: seq<Row>, lastSequence: nat, hasMore: bool, totalCount: nat)

  /** ORDER BY sequence DESC. */
  function Descending(rows: seq<Row>): seq<Row> {
    if rows == [] then [] else InsertDescending(rows[|rows| - 1], Descending(rows[..|rows| - 1]))
  }

  function InsertDescending(row: Row, sorted: seq<Row>): seq<Row> {
    if sorted == [] || sorted[0].sequence <= row.sequence then [row] + sorted
    else [sorted[0]] + InsertDescending(row, sorted[1..])
  }

  /** LIMIT and OFFSET: a negative limit means none, a negative offset means 0. */
  function Slice(rows: seq<Row>, limit: int, offset: int): seq<Row> {
    var from := if offset < 0 then 0 else if offset > |rows| then |rows| else offset;
    if limit < 0 || from + limit > |rows| then rows[from..] else rows[from..from + limit]
  }

  /** A missing or zero limit means 100. */
  function GetLogs(rows: seq<Row>, instance: string, limit: Option<int>, offset: Option<int>): Page {
    var lim := if limit == None || limit == Some(0) then 100 else limit.value;
    var off := if offset == None then 0 else offset.value;
    PageOf(Of(rows, instance), lim, off)
  }

  function PageOf(mine: seq<Row>, limit: int, offset: int): Page {
    var logs := Slice(Descending(mine), limit, offset);
    Page(logs, MaxSequence(logs), offset + |logs| < |mine|, |mine|)
  }

  function Reverse<T>(s: seq<T>): (r: seq<T>)
    ensures |r| == |s|
    ensures forall i | 0 <= i < |s| :: r[i] == s[|s| - 1 - i]
  {
    if s == [] then [] else [s[|s| - 1]] + Reverse(s[..|s| - 1])
  }

  lemma {:induction false} DescendingReverses(rows: seq<Row>, bound: nat)
    requires IncreasingBelow(rows, bound)
    ensures Descending(rows) == Reverse(rows)
  {
    if rows != [] {
      DescendingReverses(rows[..|rows| - 1], rows[|rows| - 1].sequence);
      IncreasingPairs(rows, bound);
    }
  }

  /** The rows of an instance, newest first. */
  function Newest(rows: seq<Row>, instance: string): seq<Row> { Reverse(Of(rows, instance)) }

  lemma NewestIsDescending(t: Table, instance: string)
    requires Sound(t)
    ensures Descending(Of(t.rows, instance)) == Newest(t.rows, instance)
    ensures StrictlyFalling(Newest(t.rows, instance))
  {
    OfStaysIncreasing(t.rows, t.counter, instance);
    DescendingReverses(Of(t.rows, instance), t.counter);
    ReverseFalls(Of(t.rows, instance), t.counter);
  }

  lemma ReverseFalls(rows: seq<Row>, bound: nat)
    requires IncreasingBelow(rows, bound)
    ensures StrictlyFalling(Reverse(rows))
  {
    IncreasingPairs(rows, bound);
  }

  ghost predicate StrictlyFalling(rows: seq<Row>) {
    forall i, j | 0 <= i < j < |rows| :: rows[i].sequence > rows[j].sequence
  }

  function From<T>(s: seq<T>, limit: nat, offset: nat): seq<T> {
    if offset >= |s| then [] else if offset + limit <= |s| then s[offset..offset + limit] else s[offset..]
  }

  ghost predicate PageIs(page: Page, mine: seq<Row>, limit: nat, offset: nat) {
    && page.totalCount == |mine|
    && (page.hasMore <==> offset + limit < |mine|)
    && page.logs == From(mine, limit, offset)
    && page.lastSequence == if offset < |mine| then mine[offset].sequence else 0
  }

  /** One page, on a table as every run leaves it: the next `limit` rows, newest first, the highest
      number among them, and `hasMore` exactly when rows remain beyond them. */
  lemma PageShows(t: Table, instance: string, limit: nat, offset: nat)
    requires Sound(t) && limit >= 1
    ensures PageIs(GetLogs(t.rows, instance, Some(limit), Some(offset)), Newest(t.rows, instance), limit, offset)
  {
    NewestIsDescending(t, instance);
    PageOfShows(Of(t.rows, instance), Newest(t.rows, instance), limit, offset);
  }

  /** The other pages: without a limit, or with 0, up to 100 rows; without an offset, from the newest; a negative
      limit means all the rest, and a negative offset still starts at the newest. */
  lemma OtherPages(t: Table, instance: string, limit: Option<int>, offset: Option<int>, negative: int)
    requires Sound(t) && negative < 0
    ensures GetLogs(t.rows, instance, None, offset) == GetLogs(t.rows, instance, Some(0), offset)
            == GetLogs(t.rows, instance, Some(100), offset)
    ensures GetLogs(t.rows, instance, limit, None) == GetLogs(t.rows, instance, limit, Some(0))
    ensures GetLogs(t.rows, instance, limit, Some(negative)).logs == GetLogs(t.rows, instance, limit, Some(0)).logs
    ensures var all := Newest(t.rows, instance);
            offset.Some? && 0 <= offset.value <= |all|
            ==> GetLogs(t.rows, instance, Some(negative), offset).logs == all[offset.value..]
  {
    NewestIsDescending(t, instance);
  }

  lemma PageOfShows(rows: seq<Row>, mine: seq<Row>, limit: nat, offset: nat)
    requires Descending(rows) == mine && |mine| == |rows| && StrictlyFalling(mine) && limit >= 1
    ensures PageIs(PageOf(rows, limit, offset), mine, limit, offset)
  {
    assert Slice(mine, limit, offset) == From(mine, limit, offset);
    if offset < |mine| {
      FirstIsMax(From(mine, limit, offset));
    }
  }

  lemma FirstIsMax(rows: seq<Row>)
    requires rows != [] && StrictlyFalling(rows)
    ensures MaxSequence(rows) == rows[0].sequence
  {
    var max := MaxSequence(rows);
    if max > 0 {
      var i :| 0 <= i < |rows| && rows[i].sequence == max;
    }
  }

  /** What a reader collects who starts at `offset` and asks for the next page until `hasMore` is
      false; `total` only bounds how long that can go on. */
  function ReadOn(page: nat -> Page, limit: nat, offset: nat, total: nat): seq<Row>
    requires limit >= 1
    decreases total - offset
  {
    if page(offset).hasMore && offset < total then page(offset).logs + ReadOn(page, limit, offset + limit, total)
    else page(offset).logs
  }

  lemma {:induction false} ReadOnShowsTheRest(page: nat -> Page, mine: seq<Row>, limit: nat, offset: nat)
    requires forall k: nat :: PageIs(page(k), mine, limit, k)
    requires limit >= 1 && offset <= |mine|
    ensures ReadOn(page, limit, offset, |mine|) == mine[offset..]
    decreases |mine| - offset
  {
    assert PageIs(page(offset), mine, limit, offset);
    if offset + limit < |mine| {
      ReadOnShowsTheRest(page, mine, limit, offset + limit);
      FromThenRest(mine, limit, offset);
    } else {
      FromIsRest(mine, limit, offset);
    }
  }

  lemma FromIsRest<T>(s: seq<T>, limit: nat, offset: nat)
    requires offset <= |s| <= offset + limit
    ensures From(s, limit, offset) == s[offset..]
  {
  }

  lemma FromThenRest<T>(s: seq<T>, limit: nat, offset: nat)
    requires offset + limit <= |s|
    ensures From(s, limit, offset) + s[offset + limit..] == s[offset..]
  {
  }

  lemma {:induction false} EntriesReversed(rows: seq<Row>)
    ensures Entries(Reverse(rows)) == Reverse(Entries(rows))
  {
  }

  /** After any run, reading page by page with a fixed limit shows each of the instance's stored logs
      once, newest first, and stops at the last page. */
  lemma PagesShowEveryLogOnce(calls: seq<Call>, instance: string, limit: nat)
    requires limit >= 1
    ensures var rows := After(calls).rows;
            var page := (k: nat) => GetLogs(rows, instance, Some(limit), Some(k));
            var shown := ReadOn(page, limit, 0, |Of(rows, instance)|);
            Entries(shown) == Reverse(Kept(calls, instance)) && StrictlyFalling(shown)
  {
    var t := After(calls);
    var mine := Newest(t.rows, instance);
    RunIsSound(calls);
    TableHoldsWhatWasStored(calls, instance);
    NewestIsDescending(t, instance);
    var page := (k: nat) => GetLogs(t.rows, instance, Some(limit), Some(k));
    forall k: nat ensures PageIs(page(k), mine, limit, k) {
      PageShows(t, instance, limit, k);
    }
    ReadOnShowsTheRest(page, mine, limit, 0);
    assert mine[0..] == mine;
    EntriesReversed(Of(t.rows, instance));
  }

  /** Logs stored between two pages push the rows on: the next page, the last one included, is that of the old list with
      the arrivals in front, so it repeats as many rows as arrived before its offset and skips none. */
  lemma StoresBetweenPagesSkipNothing(
    t: Table, added: seq<Row>, counter: nat, instance: string, limit: nat, offset: nat)
    requires Sound(Table(t.rows + added, counter)) && limit >= 1
    ensures var arrived, mine := Newest(added, instance), Newest(t.rows, instance);
            var logs := GetLogs(t.rows + added, instance, Some(limit), Some(offset)).logs;
            && logs == From(arrived + mine, limit, offset)
            && (|arrived| <= offset ==> logs == From(mine, limit, offset - |arrived|))
  {
    PageShows(Table(t.rows + added, counter), instance, limit, offset);
    OfAppend(t.rows, added, instance);
    ReverseAppend(Of(t.rows, instance), Of(added, instance));
    if |Newest(added, instance)| <= offset {
      FromAfter(Newest(added, instance), Newest(t.rows, instance), limit, offset);
    }
  }

  lemma FromAfter<T>(xs: seq<T>, ys: seq<T>, limit: nat, offset: nat)
    requires |xs| <= offset
    ensures From(xs + ys, limit, offset) == From(ys, limit, offset - |xs|)
  {
  }

  lemma ReverseAppend<T>(xs: seq<T>, ys: seq<T>)
    ensures Reverse(xs + ys) == Reverse(ys) + Reverse(xs)
  {
    forall i | 0 <= i < |xs| + |ys| ensures Reverse(xs + ys)[i] == (Reverse(ys) + Reverse(xs))[i] {
      assert Reverse(xs + ys)[i] == (xs + ys)[|xs| + |ys| - 1 - i];
    }
  }
}
