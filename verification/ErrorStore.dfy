/** The supervisor's deduplicating error table and its summary. */
module ErrorStore {
  import opened Common
  import opened Text

  /** One table row; `hash` stands for the digest of the cleaned message and the level. */
  datatype Row = Row(id: nat, instance: string, hash: string, timestamp: string, level: int,
                     message: string, rawOutput: string, count: nat)

  datatype SimpleError = SimpleError(hash: string, timestamp: string, level: int, message: string, rawOutput: string)

  /** The two dates are kept as the timestamps they are made from. */
  datatype Summary = Summary(total: nat, unique: nat, repeated: int, byLevel: map<int, nat>,
                             latest: Option<string>, oldest: Option<string>)

  /** The statements of one attempt run to their end, or the database fails before anything is written. */
  datatype Outcome = Works | Fails

  const MAX_ATTEMPTS := 3

  function FindRow(rows: seq<Row>, instance: string, hash: string): (k: int)
    ensures -1 <= k < |rows|
    ensures k >= 0 ==> rows[k].instance == instance && rows[k].hash == hash
    ensures k < 0 ==> forall i | 0 <= i < |rows| :: rows[i].instance != instance || rows[i].hash != hash
  {
    if rows == [] then -1
    else if rows[|rows| - 1].instance == instance && rows[|rows| - 1].hash == hash then |rows| - 1
    else FindRow(rows[..|rows| - 1], instance, hash)
  }

  datatype Table = Table(rows: seq<Row>, nextId: nat)

  function Store(t: Table, instance: string, e: SimpleError): Table {
    var k := FindRow(t.rows, instance, e.hash);
    if k >= 0 then
      t.(rows := t.rows[k := Updated(t.rows[k], e)])
    else
      Table(t.rows + [Fresh(t.nextId, instance, e)], t.nextId + 1)
  }

  function Updated(row: Row, e: SimpleError): Row {
    row.(count := row.count + 1, timestamp := e.timestamp, rawOutput := e.rawOutput)
  }

  function Fresh(id: nat, instance: string, e: SimpleError): Row {
    Row(id, instance, e.hash, e.timestamp, e.level, e.message, e.rawOutput, 1)
  }

  /** The rows of one instance, as the queries with its id in their WHERE clause see them. */
  function Of(rows: seq<Row>, instance: string): seq<Row> {
    if rows == [] then []
    else
      var before := Of(rows[..|rows| - 1], instance);
      if rows[|rows| - 1].instance == instance then before + [rows[|rows| - 1]] else before
  }

  function Without(rows: seq<Row>, instance: string): seq<Row> {
    if rows == [] then []
    else
      var before := Without(rows[..|rows| - 1], instance);
      if rows[|rows| - 1].instance == instance then before else before + [rows[|rows| - 1]]
  }

  function Total(rows: seq<Row>): nat {
    if rows == [] then 0 else Total(rows[..|rows| - 1]) + rows[|rows| - 1].count
  }

  function Hashes(rows: seq<Row>): set<string> { set row | row in rows :: row.hash }

  function AtLevel(rows: seq<Row>, level: int): nat {
    if rows == [] then 0
    else AtLevel(rows[..|rows| - 1], level) + if rows[|rows| - 1].level == level then rows[|rows| - 1].count else 0
  }

  // ---------- the grouped query ----------

  function FindHash(rows: seq<Row>, hash: string): (k: int)
    ensures -1 <= k < |rows|
    ensures k >= 0 ==> rows[k].hash == hash
    ensures k < 0 ==> forall i | 0 <= i < |rows| :: rows[i].hash != hash
  {
    if rows == [] then -1
    else if rows[|rows| - 1].hash == hash then |rows| - 1
    else FindHash(rows[..|rows| - 1], hash)
  }

  function Greater(a: string, b: string): string { if Before(a, b) then b else a }

  /** SUM of the counts and MAX of id, timestamp and output; level and message are those of the group's first row. */
  function Merged(group: Row, row: Row): Row {
    group.(
      id := if group.id < row.id then row.id else group.id,
      timestamp := Greater(group.timestamp, row.timestamp),
      rawOutput := Greater(group.rawOutput, row.rawOutput),
      count := group.count + row.count)
  }

  function GroupByHash(rows: seq<Row>): seq<Row> {
    if rows == [] then [] else AddToGroups(GroupByHash(rows[..|rows| - 1]), rows[|rows| - 1])
  }

  function AddToGroups(groups: seq<Row>, row: Row): seq<Row> {
    var k := FindHash(groups, row.hash);
    if k >= 0 then groups[k := Merged(groups[k], row)] else groups + [row]
  }

  /** ORDER BY latest_timestamp DESC. */
  function OrderByLatest(rows: seq<Row>): seq<Row> {
    if rows == [] then [] else InsertByTime(OrderByLatest(rows[..|rows| - 1]), rows[|rows| - 1])
  }

  function InsertByTime(sorted: seq<Row>, row: Row): seq<Row> {
    if sorted == [] || !Before(sorted[|sorted| - 1].timestamp, row.timestamp) then sorted + [row]
    else InsertByTime(sorted[..|sorted| - 1], row) + [sorted[|sorted| - 1]]
  }

  function SelectErrors(rows: seq<Row>, instance: string): seq<Row> { OrderByLatest(GroupByHash(Of(rows, instance))) }

  /** At most one row per instance and hash, counts positive: grouping by hash changes nothing. */
  ghost predicate Deduplicated(rows: seq<Row>) {
    && (forall i, j | 0 <= i < j < |rows| :: rows[i].instance != rows[j].instance || rows[i].hash != rows[j].hash)
    && (forall i | 0 <= i < |rows| :: rows[i].count > 0)
  }

  // ---------- the object ----------

  class ErrorStorage {
    var rows: seq<Row>
    var nextId: nat

    function View(): Table
      reads this
    {
      Table(rows, nextId)
    }

    constructor ()
      ensures View() == Table([], 1)
    {
      rows, nextId := [], 1;
    }

    method StoreError(instance: string, e: SimpleError, outcome: Outcome) returns (success: bool)
      modifies this
      ensures success <==> outcome.Works?
      ensures View() == if success then Store(old(View()), instance, e) else old(View())
    {
      if outcome.Fails? { return false; }
      var existing := FindRow(rows, instance, e.hash);
      if existing >= 0 {
        rows := rows[existing := Updated(rows[existing], e)];
      } else {
        rows := rows + [Fresh(nextId, instance, e)];
        nextId := nextId + 1;
      }
      return true;
    }

    /** The retrying wrapper; `outcomes` says how each attempt would go. */
    method StoreWithRetry(instance: string, e: SimpleError, outcomes: seq<Outcome>) returns (success: bool)
      requires |outcomes| == 3
      modifies this
      ensures success <==> Works in outcomes
      ensures View() == if success then Store(old(View()), instance, e) else old(View())
    {
      var attempt := 0;
      success := StoreError(instance, e, outcomes[0]);
      while !success && attempt < MAX_ATTEMPTS - 1
        invariant 0 <= attempt < MAX_ATTEMPTS
        invariant success <==> Works in outcomes[..attempt + 1]
        invariant View() == if success then Store(old(View()), instance, e) else old(View())
        decreases MAX_ATTEMPTS - attempt
      {
        attempt := attempt + 1;
        assert outcomes[..attempt + 1] == outcomes[..attempt] + [outcomes[attempt]];
        success := StoreError(instance, e, outcomes[attempt]);
      }
    }

    method ClearErrors(instance: string, outcome: Outcome) returns (cleared: Option<nat>)
      modifies `rows
      ensures cleared == if outcome.Works? then Some(|Of(old(rows), instance)|) else None
      ensures rows == if outcome.Works? then Without(old(rows), instance) else old(rows)
    {
      if outcome.Fails? { return None; }
      cleared := Some(|Of(rows, instance)|);
      rows := Without(rows, instance);
    }

    method GetErrorSummary(instance: string) returns (s: Summary)
      ensures Summarizes(s, SelectErrors(rows, instance))
      ensures s.total == Total(Of(rows, instance)) && s.unique == |Hashes(Of(rows, instance))|
          && s.repeated == s.total - s.unique
    {
      var errors := SelectErrors(rows, instance);
      SelectionAddsUp(rows, instance);
      if errors == [] {
        LevelsSumToTotal(map[], errors);
        return Summary(0, 0, 0, map[], None, None);
      }
      var byLevel, uniqueHashes, total := CountErrors(errors);
      LevelsSumToTotal(byLevel, errors);
      s := Summary(total, |uniqueHashes|, total - |errors|, byLevel, Some(errors[0].timestamp),
          Some(errors[|errors| - 1].timestamp));
    }

    /** The loop of the summary. */
    method CountErrors(errors: seq<Row>) returns (byLevel: map<int, nat>, uniqueHashes: set<string>, total: nat)
      ensures total == Total(errors) && uniqueHashes == Hashes(errors) && CountsLevels(byLevel, errors)
    {
      byLevel, uniqueHashes, total := map[], {}, 0;
      for i := 0 to |errors|
        invariant total == Total(errors[..i]) && uniqueHashes == Hashes(errors[..i])
        invariant CountsLevels(byLevel, errors[..i])
      {
        var e := errors[i];
        CountOneMore(byLevel, errors, i);
        byLevel := byLevel[e.level := (if e.level in byLevel then byLevel[e.level] else 0) + e.count];
        uniqueHashes := uniqueHashes + {e.hash};
        total := total + e.count;
      }
      assert errors[..|errors|] == errors;
    }
  }

  // ---------- what a summary says about its rows ----------

  ghost predicate CountsLevels(byLevel: map<int, nat>, rows: seq<Row>) {
    && byLevel.Keys == (set row | row in rows :: row.level)
    && (forall level | level in byLevel :: byLevel[level] == AtLevel(rows, level))
  }

  /** The level counts add up to the total, repeated is what remains beyond the first of each, and
      the two dates are the extremes of the rows' timestamps. */
  ghost predicate Summarizes(s: Summary, errors: seq<Row>) {
    && s.total == Total(errors) && s.unique == |Hashes(errors)| && s.repeated == s.total - |errors|
    && CountsLevels(s.byLevel, errors) && SumOver(s.byLevel, s.byLevel.Keys) == s.total
    && (if errors == [] then s.latest == s.oldest == None else IsLatest(s.latest, errors) && IsOldest(s.oldest, errors))
  }

  ghost predicate IsLatest(time: Option<string>, errors: seq<Row>) {
    && (exists row :: row in errors && Some(row.timestamp) == time)
    && (forall row | row in errors :: time.Some? && !Before(time.value, row.timestamp))
  }

  ghost predicate IsOldest(time: Option<string>, errors: seq<Row>) {
    && (exists row :: row in errors && Some(row.timestamp) == time)
    && (forall row | row in errors :: time.Some? && !Before(row.timestamp, time.value))
  }

  ghost function SumOver(m: map<int, nat>, keys: set<int>): nat
    requires keys <= m.Keys
  {
    if exists k :: k in keys then
      var k :| k in keys;
      m[k] + SumOver(m, keys - {k})
    else 0
  }

  function TotalIn(rows: seq<Row>, levels: set<int>): nat {
    if rows == [] then 0
    else TotalIn(rows[..|rows| - 1], levels) + if rows[|rows| - 1].level in levels then rows[|rows| - 1].count else 0
  }

  lemma CountOneMore(byLevel: map<int, nat>, rows: seq<Row>, i: nat)
    requires i < |rows| && CountsLevels(byLevel, rows[..i])
    ensures var e := rows[i];
            var more := (if e.level in byLevel then byLevel[e.level] else 0) + e.count;
            CountsLevels(byLevel[e.level := more], rows[..i + 1])
    ensures Total(rows[..i + 1]) == Total(rows[..i]) + rows[i].count
    ensures Hashes(rows[..i + 1]) == Hashes(rows[..i]) + {rows[i].hash}
  {
    assert rows[..i + 1] == rows[..i] + [rows[i]] && rows[..i + 1][..i] == rows[..i];
    if rows[i].level !in byLevel {
      AbsentLevel(rows[..i], rows[i].level);
    }
  }

  lemma {:induction false} AbsentLevel(rows: seq<Row>, level: int)
    requires forall row | row in rows :: row.level != level
    ensures AtLevel(rows, level) == 0
  {
    if rows != [] {
      AbsentLevel(rows[..|rows| - 1], level);
    }
  }

  lemma {:induction false} TotalInSplits(rows: seq<Row>, levels: set<int>, k: int)
    requires k in levels
    ensures TotalIn(rows, levels) == AtLevel(rows, k) + TotalIn(rows, levels - {k})
  {
    if rows != [] {
      TotalInSplits(rows[..|rows| - 1], levels, k);
    }
  }

  lemma {:induction false} TotalInNone(rows: seq<Row>)
    ensures TotalIn(rows, {}) == 0
  {
    if rows != [] {
      TotalInNone(rows[..|rows| - 1]);
    }
  }

  lemma {:induction false} TotalInAll(rows: seq<Row>, levels: set<int>)
    requires forall row | row in rows :: row.level in levels
    ensures TotalIn(rows, levels) == Total(rows)
  {
    if rows != [] {
      TotalInAll(rows[..|rows| - 1], levels);
    }
  }

  lemma {:induction false} SumOverIsTotalIn(m: map<int, nat>, keys: set<int>, rows: seq<Row>)
    requires keys <= m.Keys && CountsLevels(m, rows)
    ensures SumOver(m, keys) == TotalIn(rows, keys)
    decreases keys
  {
    if keys == {} {
      TotalInNone(rows);
    } else {
      var k :| k in keys && SumOver(m, keys) == m[k] + SumOver(m, keys - {k});
      SumOverIsTotalIn(m, keys - {k}, rows);
      TotalInSplits(rows, keys, k);
    }
  }

  lemma LevelsSumToTotal(m: map<int, nat>, rows: seq<Row>)
    requires CountsLevels(m, rows)
    ensures SumOver(m, m.Keys) == Total(rows)
  {
    SumOverIsTotalIn(m, m.Keys, rows);
    TotalInAll(rows, m.Keys);
  }

  // ---------- what each operation does to an instance's rows ----------

  lemma {:induction false} OfMembers(rows: seq<Row>, instance: string)
    ensures forall row :: row in Of(rows, instance) <==> row in rows && row.instance == instance
  {
    if rows != [] {
      OfMembers(rows[..|rows| - 1], instance);
      assert rows == rows[..|rows| - 1] + [rows[|rows| - 1]];
    }
  }

  // ---------- grouping and ordering ----------

  ghost predicate HashesDistinct(rows: seq<Row>) {
    forall i, j | 0 <= i < j < |rows| :: rows[i].hash != rows[j].hash
  }

  lemma {:induction false} DistinctHashes(rows: seq<Row>)
    requires HashesDistinct(rows)
    ensures |rows| == |Hashes(rows)|
  {
    if rows != [] {
      var front, last := rows[..|rows| - 1], rows[|rows| - 1];
      DistinctHashes(front);
      assert rows == front + [last];
      HashesSnoc(front, last);
      assert last.hash !in Hashes(front);
    }
  }

  lemma {:induction false} ReplaceTotal(rows: seq<Row>, k: nat, row: Row)
    requires k < |rows|
    ensures Total(rows[k := row]) == Total(rows) - rows[k].count + row.count
  {
    var n := |rows| - 1;
    if k == n {
      assert rows[k := row][..n] == rows[..n];
    } else {
      assert rows[k := row][..n] == rows[..n][k := row];
      ReplaceTotal(rows[..n], k, row);
    }
  }

  lemma ReplaceHashes(rows: seq<Row>, k: nat, row: Row)
    requires k < |rows| && rows[k].hash == row.hash
    ensures Hashes(rows[k := row]) == Hashes(rows) && row.hash in Hashes(rows)
  {
    var updated := rows[k := row];
    assert rows[k] in rows;
    forall hash ensures hash in Hashes(updated) <==> hash in Hashes(rows) {
      if r :| r in updated && r.hash == hash {
        var i :| 0 <= i < |updated| && updated[i] == r;
        assert rows[i] in rows && rows[i].hash == hash;
      }
      if r :| r in rows && r.hash == hash {
        var i :| 0 <= i < |rows| && rows[i] == r;
        assert updated[i] in updated && updated[i].hash == hash;
      }
    }
  }

  lemma AddingAddsUp(groups: seq<Row>, row: Row)
    ensures Total(AddToGroups(groups, row)) == Total(groups) + row.count
    ensures Hashes(AddToGroups(groups, row)) == Hashes(groups) + {row.hash}
  {
    var k := FindHash(groups, row.hash);
    if k >= 0 {
      ReplaceTotal(groups, k, Merged(groups[k], row));
      ReplaceHashes(groups, k, Merged(groups[k], row));
      assert Hashes(groups) + {row.hash} == Hashes(groups);
    } else {
      TotalSnoc(groups, row);
      HashesSnoc(groups, row);
    }
  }

  lemma AddingStaysDistinct(groups: seq<Row>, row: Row)
    requires HashesDistinct(groups)
    ensures HashesDistinct(AddToGroups(groups, row))
  {
  }

  /** Grouping makes one row of each hash and keeps the total. */
  lemma {:induction false} GroupingAddsUp(rows: seq<Row>)
    ensures HashesDistinct(GroupByHash(rows))
    ensures Total(GroupByHash(rows)) == Total(rows) && Hashes(GroupByHash(rows)) == Hashes(rows)
  {
    if rows != [] {
      var front, row := rows[..|rows| - 1], rows[|rows| - 1];
      GroupingAddsUp(front);
      AddingAddsUp(GroupByHash(front), row);
      AddingStaysDistinct(GroupByHash(front), row);
      HashesLast(rows);
    }
  }

  lemma HashesLast(rows: seq<Row>)
    requires rows != []
    ensures Hashes(rows) == Hashes(rows[..|rows| - 1]) + {rows[|rows| - 1].hash}
  {
    HashesSnoc(rows[..|rows| - 1], rows[|rows| - 1]);
    assert rows == rows[..|rows| - 1] + [rows[|rows| - 1]];
  }

  function Group(groups: seq<Row>, hash: string): Option<Row> {
    var k := FindHash(groups, hash);
    if k < 0 then None else Some(groups[k])
  }

  lemma {:induction false} FindHashByHashes(a: seq<Row>, b: seq<Row>, hash: string)
    requires |a| == |b| && forall i | 0 <= i < |a| :: a[i].hash == b[i].hash
    ensures FindHash(a, hash) == FindHash(b, hash)
  {
    if a != [] {
      FindHashByHashes(a[..|a| - 1], b[..|b| - 1], hash);
    }
  }

  lemma GroupAfterAdd(groups: seq<Row>, row: Row, hash: string)
    ensures var before := Group(groups, hash);
            Group(AddToGroups(groups, row), hash)
            == if hash != row.hash then before else if before.None? then Some(row) else Some(Merged(before.value, row))
  {
    var k := FindHash(groups, row.hash);
    if k >= 0 {
      FindHashByHashes(groups, AddToGroups(groups, row), hash);
    } else {
      assert (groups + [row])[..|groups|] == groups;
    }
  }

  function CountOf(rows: seq<Row>, hash: string): nat {
    if rows == [] then 0
    else CountOf(rows[..|rows| - 1], hash) + if rows[|rows| - 1].hash == hash then rows[|rows| - 1].count else 0
  }

  /** On any table a group's count is the sum over the rows with its hash, its id, timestamp and output the greatest of
      theirs, and its level and message those of one of them. */
  ghost predicate Aggregates(group: Option<Row>, rows: seq<Row>, hash: string) {
    && (group.None? <==> forall row | row in rows :: row.hash != hash)
    && (group.Some? ==>
          && group.value.hash == hash && group.value.count == CountOf(rows, hash)
          && (forall row | row in rows && row.hash == hash :: NoneAbove(group.value, row))
          && Occurs(group.value, rows))
  }

  ghost predicate NoneAbove(group: Row, row: Row) {
    row.id <= group.id && !Before(group.timestamp, row.timestamp) && !Before(group.rawOutput, row.rawOutput)
  }

  ghost predicate Occurs(group: Row, rows: seq<Row>) {
    && (exists row :: row in rows && row.hash == group.hash && row.id == group.id)
    && (exists row :: row in rows && row.hash == group.hash && row.timestamp == group.timestamp)
    && (exists row :: row in rows && row.hash == group.hash && row.rawOutput == group.rawOutput)
    && (exists row :: row in rows && row.hash == group.hash && row.level == group.level && row.message == group.message)
  }

  lemma GreaterIsAbove(a: string, b: string, c: string)
    requires !Before(a, c) || b == c
    ensures !Before(Greater(a, b), c)
  {
    BeforeIsStrict(c);
    if Before(a, b) && Before(b, c) { BeforeIsTransitive(a, b, c); }
  }

  lemma MergedIsAbove(group: Row, row: Row, r: Row)
    requires NoneAbove(group, r) || r == row
    ensures NoneAbove(Merged(group, row), r)
  {
    GreaterIsAbove(group.timestamp, row.timestamp, r.timestamp);
    GreaterIsAbove(group.rawOutput, row.rawOutput, r.rawOutput);
  }

  lemma MergedOccurs(group: Row, front: seq<Row>, row: Row)
    requires Occurs(group, front) && row.hash == group.hash
    ensures Occurs(Merged(group, row), front + [row])
  {
    forall r | r in front ensures r in front + [row] {}
    assert row in front + [row];
  }

  lemma {:induction false} GroupsAggregate(rows: seq<Row>, hash: string)
    ensures Aggregates(Group(GroupByHash(rows), hash), rows, hash)
  {
    if rows != [] {
      var front, row := rows[..|rows| - 1], rows[|rows| - 1];
      GroupsAggregate(front, hash);
      GroupAfterAdd(GroupByHash(front), row, hash);
      AggregateMore(Group(GroupByHash(front), hash), front, row, hash);
      assert rows == front + [row];
    } else {
      assert FindHash([], hash) == -1;
    }
  }

  lemma {:induction false} NoneCounted(rows: seq<Row>, hash: string)
    requires forall row | row in rows :: row.hash != hash
    ensures CountOf(rows, hash) == 0
  {
    if rows != [] {
      NoneCounted(rows[..|rows| - 1], hash);
    }
  }

  lemma AggregateMore(group: Option<Row>, front: seq<Row>, row: Row, hash: string)
    requires Aggregates(group, front, hash)
    ensures Aggregates(if hash != row.hash then group
                       else if group.None? then Some(row) else Some(Merged(group.value, row)),
                       front + [row], hash)
  {
    assert (front + [row])[..|front|] == front;
    if hash != row.hash {
      AggregateSame(group, front, row, hash);
    } else if group.None? {
      AggregateFirst(front, row);
    } else {
      AggregateMerged(group.value, front, row);
    }
  }

  lemma SnocMembers(front: seq<Row>, row: Row)
    ensures forall r :: r in front + [row] <==> r in front || r == row
  {
  }

  lemma AggregateSame(group: Option<Row>, front: seq<Row>, row: Row, hash: string)
    requires Aggregates(group, front, hash) && row.hash != hash
    ensures Aggregates(group, front + [row], hash)
  {
    assert (front + [row])[..|front|] == front;
    SnocMembers(front, row);
  }

  lemma AggregateFirst(front: seq<Row>, row: Row)
    requires forall r | r in front :: r.hash != row.hash
    ensures Aggregates(Some(row), front + [row], row.hash)
  {
    assert (front + [row])[..|front|] == front;
    SnocMembers(front, row);
    BeforeIsStrict(row.timestamp);
    BeforeIsStrict(row.rawOutput);
    NoneCounted(front, row.hash);
  }

  lemma AggregateMerged(group: Row, front: seq<Row>, row: Row)
    requires Aggregates(Some(group), front, row.hash)
    ensures Aggregates(Some(Merged(group, row)), front + [row], row.hash)
  {
    assert (front + [row])[..|front|] == front;
    SnocMembers(front, row);
    MergedOccurs(group, front, row);
    forall r | r in front + [row] && r.hash == row.hash ensures NoneAbove(Merged(group, row), r) {
      MergedIsAbove(group, row, r);
    }
  }

  /** Where each hash has one row already, grouping changes nothing. */
  lemma {:induction false} GroupingDistinct(rows: seq<Row>)
    requires HashesDistinct(rows)
    ensures GroupByHash(rows) == rows
  {
    if rows != [] {
      var front, last := rows[..|rows| - 1], rows[|rows| - 1];
      GroupingDistinct(front);
      assert FindHash(front, last.hash) < 0;
      assert front + [last] == rows;
    }
  }

  lemma {:induction false} InsertPermutes(sorted: seq<Row>, row: Row)
    ensures multiset(InsertByTime(sorted, row)) == multiset(sorted) + multiset{row}
  {
    if sorted != [] && Before(sorted[|sorted| - 1].timestamp, row.timestamp) {
      var front, last := sorted[..|sorted| - 1], sorted[|sorted| - 1];
      InsertPermutes(front, row);
      assert sorted == front + [last];
    }
  }

  lemma {:induction false} InsertTotal(sorted: seq<Row>, row: Row)
    ensures Total(InsertByTime(sorted, row)) == Total(sorted) + row.count
  {
    if sorted == [] || !Before(sorted[|sorted| - 1].timestamp, row.timestamp) {
      TotalSnoc(sorted, row);
    } else {
      var front, last := sorted[..|sorted| - 1], sorted[|sorted| - 1];
      InsertTotal(front, row);
      TotalSnoc(InsertByTime(front, row), last);
    }
  }

  lemma {:induction false} OrderPermutes(rows: seq<Row>)
    ensures multiset(OrderByLatest(rows)) == multiset(rows)
  {
    if rows != [] {
      var front, last := rows[..|rows| - 1], rows[|rows| - 1];
      OrderPermutes(front);
      InsertPermutes(OrderByLatest(front), last);
      CountLast(rows);
    }
  }

  lemma CountLast(rows: seq<Row>)
    requires rows != []
    ensures multiset(rows) == multiset(rows[..|rows| - 1]) + multiset{rows[|rows| - 1]}
  {
    assert rows == rows[..|rows| - 1] + [rows[|rows| - 1]];
  }

  lemma {:induction false} OrderTotal(rows: seq<Row>)
    ensures Total(OrderByLatest(rows)) == Total(rows)
  {
    if rows != [] {
      OrderTotal(rows[..|rows| - 1]);
      InsertTotal(OrderByLatest(rows[..|rows| - 1]), rows[|rows| - 1]);
    }
  }

  ghost predicate LatestFirst(rows: seq<Row>) {
    forall i, j | 0 <= i <= j < |rows| :: !Before(rows[i].timestamp, rows[j].timestamp)
  }

  lemma NotBeforeIsTransitive(a: string, b: string, c: string)
    requires !Before(a, b) && !Before(b, c)
    ensures !Before(a, c)
  {
    BeforeIsTotal(a, b);
    if Before(a, c) && Before(b, a) { BeforeIsTransitive(b, a, c); }
  }

  lemma LatestFirstSnoc(rows: seq<Row>, row: Row)
    requires LatestFirst(rows) && forall r | r in rows :: !Before(r.timestamp, row.timestamp)
    ensures LatestFirst(rows + [row])
  {
    BeforeIsStrict(row.timestamp);
  }

  lemma {:induction false} InsertOrders(sorted: seq<Row>, row: Row)
    requires LatestFirst(sorted)
    ensures LatestFirst(InsertByTime(sorted, row))
  {
    if sorted == [] {
      LatestFirstSnoc([], row);
    } else {
      var front, last := sorted[..|sorted| - 1], sorted[|sorted| - 1];
      if Before(last.timestamp, row.timestamp) {
        InsertOrders(front, row);
        InsertPermutes(front, row);
        NotLaterThanLast(front, row, last);
        LatestFirstSnoc(InsertByTime(front, row), last);
      } else {
        forall r | r in sorted ensures !Before(r.timestamp, row.timestamp) {
          NotBeforeIsTransitive(r.timestamp, last.timestamp, row.timestamp);
        }
        LatestFirstSnoc(sorted, row);
      }
    }
  }

  lemma NotLaterThanLast(front: seq<Row>, row: Row, last: Row)
    requires LatestFirst(front + [last]) && Before(last.timestamp, row.timestamp)
    ensures forall r | r in InsertByTime(front, row) :: !Before(r.timestamp, last.timestamp)
  {
    InsertPermutes(front, row);
    var sorted := front + [last];
    forall r | r in InsertByTime(front, row) ensures !Before(r.timestamp, last.timestamp) {
      assert r in multiset(InsertByTime(front, row));
      if r == row {
        BeforeIsStrict(row.timestamp);
        if Before(row.timestamp, last.timestamp) { BeforeIsTransitive(row.timestamp, last.timestamp, row.timestamp); }
      } else {
        var i :| 0 <= i < |front| && front[i] == r;
        assert sorted[i] == r && sorted[|front|] == last;
      }
    }
  }

  lemma {:induction false} OrderIsLatestFirst(rows: seq<Row>)
    ensures LatestFirst(OrderByLatest(rows))
  {
    if rows != [] {
      OrderIsLatestFirst(rows[..|rows| - 1]);
      InsertOrders(OrderByLatest(rows[..|rows| - 1]), rows[|rows| - 1]);
    }
  }

  lemma SameMembers(xs: seq<Row>, ys: seq<Row>)
    requires multiset(xs) == multiset(ys)
    ensures |xs| == |ys| && (forall row :: row in xs <==> row in ys) && Hashes(xs) == Hashes(ys)
  {
    assert |multiset(xs)| == |xs| && |multiset(ys)| == |ys|;
    assert forall row :: row in xs <==> row in multiset(xs);
    assert forall row :: row in ys <==> row in multiset(ys);
  }

  /** On any table the query's rows account for all of the instance's: one row per hash, the same total, the same
      hashes, latest first. */
  lemma SelectionAddsUp(rows: seq<Row>, instance: string)
    ensures var errors, mine := SelectErrors(rows, instance), Of(rows, instance);
            && Total(errors) == Total(mine) && Hashes(errors) == Hashes(mine) && |errors| == |Hashes(mine)|
            && LatestFirst(errors)
  {
    var groups := GroupByHash(Of(rows, instance));
    GroupingAddsUp(Of(rows, instance));
    DistinctHashes(groups);
    OrderPermutes(groups);
    OrderTotal(groups);
    SameMembers(OrderByLatest(groups), groups);
    OrderIsLatestFirst(groups);
  }

  /** Grouping by hash is the identity on a deduplicated table, where an instance has as many rows as
      distinct hashes: the query returns its rows, reordered. */
  lemma OneRowPerHash(rows: seq<Row>, instance: string)
    requires Deduplicated(rows)
    ensures GroupByHash(Of(rows, instance)) == Of(rows, instance)
    ensures multiset(SelectErrors(rows, instance)) == multiset(Of(rows, instance))
    ensures |Of(rows, instance)| == |Hashes(Of(rows, instance))|
  {
    OfIsDistinct(rows, instance);
    DistinctHashes(Of(rows, instance));
    GroupingDistinct(Of(rows, instance));
    OrderPermutes(Of(rows, instance));
  }

  lemma {:induction false} OfIsDistinct(rows: seq<Row>, instance: string)
    requires Deduplicated(rows)
    ensures HashesDistinct(Of(rows, instance))
  {
    if rows != [] {
      var front, last := rows[..|rows| - 1], rows[|rows| - 1];
      OfIsDistinct(front, instance);
      OfMembers(front, instance);
      if last.instance == instance {
        forall i | 0 <= i < |Of(front, instance)| ensures Of(front, instance)[i].hash != last.hash {
          assert Of(front, instance)[i] in front;
        }
      }
    }
  }

  // ---------- a store ----------

  lemma {:induction false} UpdateTotal(rows: seq<Row>, k: nat, row: Row, instance: string)
    requires k < |rows| && row.instance == rows[k].instance && row.count == rows[k].count + 1
    ensures Total(Of(rows[k := row], instance)) == Total(Of(rows, instance)) + if row.instance == instance then 1 else 0
  {
    var n := |rows| - 1;
    TotalOfSnoc(rows[..n], rows[n], instance);
    assert rows == rows[..n] + [rows[n]];
    if k == n {
      assert rows[k := row] == rows[..n] + [row];
      TotalOfSnoc(rows[..n], row, instance);
    } else {
      assert rows[k := row] == rows[..n][k := row] + [rows[n]];
      UpdateTotal(rows[..n], k, row, instance);
      TotalOfSnoc(rows[..n][k := row], rows[n], instance);
    }
  }

  lemma TotalOfSnoc(rows: seq<Row>, row: Row, instance: string)
    ensures Total(Of(rows + [row], instance))
            == Total(Of(rows, instance)) + if row.instance == instance then row.count else 0
  {
    OfSnoc(rows, row, instance);
    TotalSnoc(Of(rows, instance), row);
  }

  lemma TotalSnoc(rows: seq<Row>, row: Row)
    ensures Total(rows + [row]) == Total(rows) + row.count
  {
    assert (rows + [row])[..|rows|] == rows;
  }

  lemma OfSnoc(rows: seq<Row>, row: Row, instance: string)
    ensures Of(rows + [row], instance)
            == if row.instance == instance then Of(rows, instance) + [row] else Of(rows, instance)
  {
    assert (rows + [row])[..|rows|] == rows;
  }

  lemma {:induction false} StoreStaysDeduplicated(t: Table, instance: string, e: SimpleError)
    requires Deduplicated(t.rows)
    ensures Deduplicated(Store(t, instance, e).rows)
  {
  }

  ghost predicate CountsOne(before: seq<Row>, after: seq<Row>, mine: bool, hash: string) {
    && Total(after) == Total(before) + (if mine then 1 else 0)
    && Hashes(after) == Hashes(before) + (if mine then {hash} else {})
  }

  lemma UpdateCountsOne(rows: seq<Row>, k: nat, row: Row, instance: string)
    requires k < |rows| && row.instance == rows[k].instance && row.hash == rows[k].hash
        && row.count == rows[k].count + 1
    ensures CountsOne(Of(rows, instance), Of(rows[k := row], instance), row.instance == instance, row.hash)
  {
    UpdateTotal(rows, k, row, instance);
    UpdateHashes(rows, k, row, instance);
    HashPresent(rows, k, instance);
    var present := Hashes(Of(rows, instance));
    assert row.instance == instance ==> present + {row.hash} == present;
    assert present + {} == present;
  }

  lemma HashesSnoc(rows: seq<Row>, row: Row)
    ensures Hashes(rows + [row]) == Hashes(rows) + {row.hash}
  {
    forall hash ensures hash in Hashes(rows + [row]) <==> hash in Hashes(rows) + {row.hash} {
      if r :| r in rows && r.hash == hash { assert r in rows + [row]; }
      assert row in rows + [row];
    }
  }

  lemma InsertCountsOne(mine: seq<Row>, row: Row, after: seq<Row>, isMine: bool)
    requires row.count == 1 && after == if isMine then mine + [row] else mine
    ensures CountsOne(mine, after, isMine, row.hash)
  {
    if isMine {
      TotalSnoc(mine, row);
      HashesSnoc(mine, row);
    } else {
      assert Hashes(mine) + {} == Hashes(mine);
    }
  }

  /** A store adds one to its instance's total and its hash to the instance's
      hashes, and leaves the other instances alone. */
  lemma StoreCountsOne(t: Table, instance: string, e: SimpleError, other: string)
    ensures CountsOne(Of(t.rows, other), Of(Store(t, instance, e).rows, other), other == instance, e.hash)
  {
    var k := FindRow(t.rows, instance, e.hash);
    if k >= 0 {
      UpdateCountsOne(t.rows, k, Updated(t.rows[k], e), other);
    } else {
      var row := Fresh(t.nextId, instance, e);
      OfSnoc(t.rows, row, other);
      InsertCountsOne(Of(t.rows, other), row, Of(t.rows + [row], other), other == instance);
    }
  }

  lemma HashPresent(rows: seq<Row>, k: nat, instance: string)
    requires k < |rows|
    ensures rows[k].instance == instance ==> rows[k].hash in Hashes(Of(rows, instance))
  {
    OfMembers(rows, instance);
    assert rows[k] in rows;
  }

  lemma {:induction false} UpdateHashes(rows: seq<Row>, k: nat, row: Row, instance: string)
    requires k < |rows| && row.instance == rows[k].instance && row.hash == rows[k].hash
    ensures Hashes(Of(rows[k := row], instance)) == Hashes(Of(rows, instance))
  {
    var updated := rows[k := row];
    OfMembers(rows, instance);
    OfMembers(updated, instance);
    forall hash ensures hash in Hashes(Of(updated, instance)) <==> hash in Hashes(Of(rows, instance)) {
      if r :| r in Of(updated, instance) && r.hash == hash {
        var i :| 0 <= i < |updated| && updated[i] == r;
        assert rows[i] in Of(rows, instance) && rows[i].hash == hash;
      }
      if r :| r in Of(rows, instance) && r.hash == hash {
        var i :| 0 <= i < |rows| && rows[i] == r;
        assert updated[i] in Of(updated, instance) && updated[i].hash == hash;
      }
    }
  }

  lemma {:induction false} WithoutMembers(rows: seq<Row>, instance: string)
    ensures forall row | row in Without(rows, instance) :: row in rows && row.instance != instance
  {
    if rows != [] {
      WithoutMembers(rows[..|rows| - 1], instance);
    }
  }

  lemma {:induction false} WithoutKeepsOthers(rows: seq<Row>, instance: string, other: string)
    ensures Of(Without(rows, instance), other) == if other == instance then [] else Of(rows, other)
  {
    if rows != [] {
      var front, last := rows[..|rows| - 1], rows[|rows| - 1];
      WithoutKeepsOthers(front, instance, other);
      OfSnoc(Without(front, instance), last, other);
    }
  }

  lemma {:induction false} WithoutStaysDeduplicated(rows: seq<Row>, instance: string)
    requires Deduplicated(rows)
    ensures Deduplicated(Without(rows, instance))
  {
    if rows != [] {
      var front, last := rows[..|rows| - 1], rows[|rows| - 1];
      WithoutStaysDeduplicated(front, instance);
      WithoutMembers(front, instance);
      DeduplicatedSnoc(Without(front, instance), front, last);
    }
  }

  lemma DeduplicatedSnoc(kept: seq<Row>, rows: seq<Row>, row: Row)
    requires Deduplicated(kept) && Deduplicated(rows + [row]) && forall r | r in kept :: r in rows
    ensures Deduplicated(kept + [row])
  {
    var all := rows + [row];
    assert all[|rows|] == row && row.count > 0;
    forall i | 0 <= i < |kept| ensures kept[i].instance != row.instance || kept[i].hash != row.hash {
      assert kept[i] in rows;
      var j :| 0 <= j < |rows| && rows[j] == kept[i];
      assert all[j] == kept[i];
    }
  }

  // ---------- all runs ----------

  datatype Call =
    | StoreCall(instance: string, e: SimpleError, outcomes: seq<Outcome>)
    | ClearCall(instance: string, outcome: Outcome)

  function After(calls: seq<Call>): Table {
    if calls == [] then Table([], 1)
    else
      var t := After(calls[..|calls| - 1]);
      match calls[|calls| - 1]
      case StoreCall(instance, e, outcomes) => if Works in outcomes then Store(t, instance, e) else t
      case ClearCall(instance, outcome) => if outcome.Works? then t.(rows := Without(t.rows, instance)) else t
  }

  /** The errors successfully stored for an instance since its last successful clear. */
  function StoredSinceClear(calls: seq<Call>, instance: string): seq<SimpleError> {
    if calls == [] then []
    else
      var before := StoredSinceClear(calls[..|calls| - 1], instance);
      match calls[|calls| - 1]
      case StoreCall(i, e, outcomes) => if i == instance && Works in outcomes then before + [e] else before
      case ClearCall(i, outcome) => if i == instance && outcome.Works? then [] else before
  }

  function StoredHashes(stored: seq<SimpleError>): set<string> { set e | e in stored :: e.hash }

  function WithHash(stored: seq<SimpleError>, hash: string): seq<SimpleError> {
    if stored == [] then []
    else
      var before := WithHash(stored[..|stored| - 1], hash);
      if stored[|stored| - 1].hash == hash then before + [stored[|stored| - 1]] else before
  }

  /** The row counts these errors, shows what the first one said and when the last one came. */
  ghost predicate Describes(row: Row, same: seq<SimpleError>) {
    && row.count == |same| > 0
    && row.level == same[0].level && row.message == same[0].message
    && row.timestamp == same[|same| - 1].timestamp && row.rawOutput == same[|same| - 1].rawOutput
  }

  /** The instance's rows account for exactly these stores. */
  ghost predicate Accounts(rows: seq<Row>, stored: seq<SimpleError>, instance: string) {
    && Total(Of(rows, instance)) == |stored|
    && Hashes(Of(rows, instance)) == StoredHashes(stored)
  }

  ghost predicate Describe(rows: seq<Row>, stored: seq<SimpleError>, instance: string) {
    forall row | row in rows && row.instance == instance :: Describes(row, WithHash(stored, row.hash))
  }

  lemma WithHashSnoc(stored: seq<SimpleError>, e: SimpleError, hash: string)
    ensures WithHash(stored + [e], hash)
            == if e.hash == hash then WithHash(stored, hash) + [e] else WithHash(stored, hash)
  {
    assert (stored + [e])[..|stored|] == stored;
  }

  lemma {:induction false} NoneWithHash(stored: seq<SimpleError>, hash: string)
    requires forall e | e in stored :: e.hash != hash
    ensures WithHash(stored, hash) == []
  {
    if stored != [] {
      NoneWithHash(stored[..|stored| - 1], hash);
    }
  }

  lemma StoreAccounts(t: Table, call: Call, stored: seq<SimpleError>, instance: string)
    requires call.StoreCall? && Accounts(t.rows, stored, instance)
    ensures Accounts(Store(t, call.instance, call.e).rows,
                     if call.instance == instance then stored + [call.e] else stored, instance)
  {
    StoreCountsOne(t, call.instance, call.e, instance);
    StoredHashesSnoc(stored, call.e);
  }

  lemma StoredHashesSnoc(stored: seq<SimpleError>, e: SimpleError)
    ensures StoredHashes(stored + [e]) == StoredHashes(stored) + {e.hash}
  {
    forall hash ensures hash in StoredHashes(stored + [e]) <==> hash in StoredHashes(stored) + {e.hash} {
      if x :| x in stored && x.hash == hash { assert x in stored + [e]; }
      assert e in stored + [e];
    }
  }

  lemma StoreDescribes(t: Table, call: Call, stored: seq<SimpleError>)
    requires call.StoreCall? && Deduplicated(t.rows)
    requires Accounts(t.rows, stored, call.instance) && Describe(t.rows, stored, call.instance)
    ensures Describe(Store(t, call.instance, call.e).rows, stored + [call.e], call.instance)
  {
    var instance, e := call.instance, call.e;
    var rows, k := Store(t, instance, e).rows, FindRow(t.rows, instance, e.hash);
    forall row | row in rows && row.instance == instance
      ensures Describes(row, WithHash(stored + [e], row.hash))
    {
      WithHashSnoc(stored, e, row.hash);
      var i :| 0 <= i < |rows| && rows[i] == row;
      if i < |t.rows| {
        assert t.rows[i] in t.rows;
      } else {
        NewHashWasNotStored(t, call, stored);
      }
    }
  }

  lemma NewHashWasNotStored(t: Table, call: Call, stored: seq<SimpleError>)
    requires call.StoreCall? && FindRow(t.rows, call.instance, call.e.hash) < 0
        && Accounts(t.rows, stored, call.instance)
    ensures WithHash(stored, call.e.hash) == []
  {
    OfMembers(t.rows, call.instance);
    assert call.e.hash !in Hashes(Of(t.rows, call.instance));
    forall x | x in stored ensures x.hash != call.e.hash {
      assert x.hash in StoredHashes(stored);
    }
    NoneWithHash(stored, call.e.hash);
  }

  lemma StoreDescribesOthers(t: Table, call: Call, stored: seq<SimpleError>, instance: string)
    requires call.StoreCall? && call.instance != instance && Describe(t.rows, stored, instance)
    ensures Describe(Store(t, call.instance, call.e).rows, stored, instance)
  {
    var rows := Store(t, call.instance, call.e).rows;
    forall row | row in rows && row.instance == instance ensures row in t.rows {
      var i :| 0 <= i < |rows| && rows[i] == row;
    }
  }

  lemma ClearAccounts(rows: seq<Row>, cleared: string, stored: seq<SimpleError>, instance: string)
    requires Accounts(rows, stored, instance) && Describe(rows, stored, instance)
    ensures Accounts(Without(rows, cleared), if cleared == instance then [] else stored, instance)
    ensures Describe(Without(rows, cleared), if cleared == instance then [] else stored, instance)
  {
    WithoutKeepsOthers(rows, cleared, instance);
    WithoutMembers(rows, cleared);
  }

  lemma {:induction false} RunAccounts(calls: seq<Call>, instance: string)
    ensures Deduplicated(After(calls).rows)
    ensures Accounts(After(calls).rows, StoredSinceClear(calls, instance), instance)
    ensures Describe(After(calls).rows, StoredSinceClear(calls, instance), instance)
  {
    if calls != [] {
      var front, last := calls[..|calls| - 1], calls[|calls| - 1];
      var t, stored := After(front), StoredSinceClear(front, instance);
      RunAccounts(front, instance);
      if last.StoreCall? {
        if Works in last.outcomes {
          StoreStaysDeduplicated(t, last.instance, last.e);
          StoreAccounts(t, last, stored, instance);
          if last.instance == instance {
            StoreDescribes(t, last, stored);
          } else {
            StoreDescribesOthers(t, last, stored, instance);
          }
        }
      } else if last.outcome.Works? {
        WithoutStaysDeduplicated(t.rows, last.instance);
        ClearAccounts(t.rows, last.instance, stored, instance);
      }
    }
  }

  ghost predicate IdsBelow(rows: seq<Row>, bound: nat) {
    rows == [] || (rows[|rows| - 1].id < bound && IdsBelow(rows[..|rows| - 1], rows[|rows| - 1].id))
  }

  lemma {:induction false} WithoutKeepsIds(rows: seq<Row>, instance: string, bound: nat)
    requires IdsBelow(rows, bound)
    ensures IdsBelow(Without(rows, instance), bound)
  {
    if rows != [] {
      var front, last := rows[..|rows| - 1], rows[|rows| - 1];
      WithoutKeepsIds(front, instance, last.id);
      assert (Without(front, instance) + [last])[..|Without(front, instance)|] == Without(front, instance);
    }
  }

  lemma {:induction false} UpdateKeepsIds(rows: seq<Row>, k: nat, row: Row, bound: nat)
    requires k < |rows| && row.id == rows[k].id && IdsBelow(rows, bound)
    ensures IdsBelow(rows[k := row], bound)
  {
    var n := |rows| - 1;
    if k < n {
      UpdateKeepsIds(rows[..n], k, row, rows[n].id);
      assert rows[k := row][..n] == rows[..n][k := row];
    } else {
      assert rows[k := row][..n] == rows[..n];
    }
  }

  lemma {:induction false} IdsInOrder(rows: seq<Row>, bound: nat)
    requires IdsBelow(rows, bound)
    ensures forall i | 0 <= i < |rows| :: rows[i].id < bound
    ensures forall i, j | 0 <= i < j < |rows| :: rows[i].id < rows[j].id
  {
    if rows != [] {
      IdsInOrder(rows[..|rows| - 1], rows[|rows| - 1].id);
    }
  }

  lemma {:induction false} RunKeepsIds(calls: seq<Call>)
    ensures IdsBelow(After(calls).rows, After(calls).nextId)
  {
    if calls != [] {
      var t, last := After(calls[..|calls| - 1]), calls[|calls| - 1];
      RunKeepsIds(calls[..|calls| - 1]);
      if last.ClearCall? {
        WithoutKeepsIds(t.rows, last.instance, t.nextId);
      } else {
        var k := FindRow(t.rows, last.instance, last.e.hash);
        if k >= 0 {
          UpdateKeepsIds(t.rows, k, Updated(t.rows[k], last.e), t.nextId);
        } else {
          assert (t.rows + [Fresh(t.nextId, last.instance, last.e)])[..|t.rows|] == t.rows;
        }
      }
    }
  }

  /** On every run no two rows share an id, and later rows have higher ones. */
  lemma IdsStayDistinct(calls: seq<Call>)
    ensures var rows := After(calls).rows; forall i, j | 0 <= i < j < |rows| :: rows[i].id < rows[j].id
  {
    RunKeepsIds(calls);
    IdsInOrder(After(calls).rows, After(calls).nextId);
  }

  /** On every run of stores (with any failed attempts) and clears, starting from an empty table: one row per
      instance and hash; the summary's total is the number of the instance's successful stores since its last
      clear, its unique errors are their distinct hashes; and each error listed counts the stores with its hash,
      saying what the first said and when the last came. */
  lemma SummaryCountsStores(calls: seq<Call>, instance: string, s: Summary)
    requires Summarizes(s, SelectErrors(After(calls).rows, instance))
    ensures Deduplicated(After(calls).rows)
    ensures var stored, errors := StoredSinceClear(calls, instance), SelectErrors(After(calls).rows, instance);
            && s.total == |stored| && s.unique == |StoredHashes(stored)| && s.repeated == s.total - s.unique
            && Hashes(errors) == StoredHashes(stored) && |errors| == s.unique
            && (forall row | row in errors :: Describes(row, WithHash(stored, row.hash)))
  {
    var rows := After(calls).rows;
    RunAccounts(calls, instance);
    SelectionAddsUp(rows, instance);
    OneRowPerHash(rows, instance);
    SameMembers(SelectErrors(rows, instance), Of(rows, instance));
    OfMembers(rows, instance);
  }
}
