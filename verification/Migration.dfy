/** The conversation migration: deduplicate by key, sort by time, drop memos from long histories. */
module Migration {
  import opened Common
  import opened Text

  /** `dump` is the text a content that is not a string is turned into. */
  datatype Content = Plain(text: string) | Structured(dump: string)

  datatype Message = Message(conversationId: Option<string>, role: Option<string>, content: Content)

  datatype MigrationResult = MigrationResult(
    originalCount: nat,
    deduplicatedCount: nat,
    finalCount: nat,
    duplicatesRemoved: int,
    oldMessagesRemoved: nat,
    uniqueConversationIds: set<string>,
    finalMessages: seq<Message>)

  const MIN_MESSAGES_FOR_CLEANUP := 25

  /** Python's int() on a string; None stands for ValueError. */
  type IntParser = string -> Option<int>

  function ContentText(m: Message): string {
    match m.content
    case Plain(text) => text
    case Structured(dump) => dump
  }

  function Id(m: Message): string { if m.conversationId.Some? then m.conversationId.value else "" }

  predicate StartsWith(s: string, prefix: string) { |prefix| <= |s| && s[..|prefix|] == prefix }

  predicate Contains(s: string, part: string) {
    StartsWith(s, part) || (s != "" && Contains(s[1..], part))
  }

  /** From ids of the form conv-{timestamp}-{random}; 0 when there is none. */
  function ExtractTimestampFromId(id: string, parse: IntParser): int {
    if StartsWith(id, "conv-") then
      var parts := Split(id, '-');
      if |parts| >= 2 && parse(parts[1]).Some? then parse(parts[1]).value else 0
    else 0
  }

  function Time(m: Message, parse: IntParser): int { ExtractTimestampFromId(Id(m), parse) }

  /** The conversation id, or failing that the role and the first hundred characters. */
  function Key(m: Message): string {
    if Id(m) != "" then Id(m)
    else
      var text := ContentText(m);
      (if m.role.Some? then m.role.value else "unknown") + "_" + (if |text| > 100 then text[..100] else text) + "_0"
  }

  predicate IsInternalMemo(m: Message) {
    Contains(ContentText(m), "**<Internal Memo>**") || Contains(ContentText(m), "Project Updates:")
  }

  /** The time in an id is what stands between its first two dashes, or after the only one, when it starts with
      conv- and that is a number. */
  lemma TimeOfId(time: string, rest: string, parse: IntParser)
    requires '-' !in time
    ensures var t := if parse(time).Some? then parse(time).value else 0;
            && ExtractTimestampFromId("conv-" + time, parse) == t
            && ExtractTimestampFromId("conv-" + time + "-" + rest, parse) == t
  {
    SplitFirst("conv", time, '-');
    assert "conv" + ['-'] + time == "conv-" + time;
    SplitNone(time, '-');
    SplitFirst("conv", time + "-" + rest, '-');
    assert "conv" + ['-'] + (time + "-" + rest) == "conv-" + time + "-" + rest;
    SplitFirst(time, rest, '-');
    assert time + ['-'] + rest == time + "-" + rest;
  }

  lemma TimesNeedThePrefix(id: string, parse: IntParser)
    ensures ExtractTimestampFromId(id, parse) != 0 ==> exists rest :: id == "conv-" + rest
  {
    if StartsWith(id, "conv-") { assert id == "conv-" + id[5..]; }
  }

  lemma PartAfter(c: string, rest: string, before: string, part: string, after: string)
    requires rest == before + part + after
    ensures c + rest == (c + before) + part + after
  {
  }

  lemma {:induction false} Found(s: string, part: string) returns (before: string, after: string)
    requires Contains(s, part)
    ensures s == before + part + after
  {
    if StartsWith(s, part) {
      before, after := "", s[|part|..];
    } else {
      before, after := Found(s[1..], part);
      PartAfter([s[0]], s[1..], before, part, after);
      before := [s[0]] + before;
    }
  }

  lemma {:induction false} IsFound(before: string, part: string, after: string)
    ensures Contains(before + part + after, part)
  {
    var s := before + part + after;
    if before == "" {
      assert s[..|part|] == part;
    } else {
      assert s[1..] == before[1..] + part + after;
      IsFound(before[1..], part, after);
    }
  }

  /** Containing is having the part between two others. */
  lemma ContainsIff(s: string, part: string)
    ensures Contains(s, part) <==> exists before, after :: s == before + part + after
  {
    if Contains(s, part) {
      var before, after := Found(s, part);
    }
    if before, after :| s == before + part + after {
      IsFound(before, part, after);
    }
  }

  /** A memo is a message whose text holds one of the two marks. */
  lemma MemoIff(m: Message)
    ensures IsInternalMemo(m) <==> exists mark, before, after ::
              ContentText(m) == before + mark + after && mark in {"**<Internal Memo>**", "Project Updates:"}
  {
    ContainsIff(ContentText(m), "**<Internal Memo>**");
    ContainsIff(ContentText(m), "Project Updates:");
    if IsInternalMemo(m) {
      var mark := if Contains(ContentText(m), "**<Internal Memo>**") then "**<Internal Memo>**" else "Project Updates:";
      var before, after :| ContentText(m) == before + mark + after;
    }
  }

  /** A message without an id is known by its role and the first hundred characters, or fewer, of its text. */
  lemma KeyWithoutId(m: Message, front: string, rest: string)
    requires m.conversationId == None || m.conversationId == Some("")
    requires m.content == Plain(front + rest) || m.content == Structured(front + rest)
    requires |front| == 100 || (|front| < 100 && rest == "")
    ensures m.role == None ==> Key(m) == "unknown" + "_" + front + "_0"
    ensures m.role.Some? ==> Key(m) == m.role.value + "_" + front + "_0"
  {
    assert front + "" == front;
  }

  /** A message with an id is known by that. */
  lemma KeyWithId(m: Message, id: string)
    requires m.conversationId == Some(id) && id != ""
    ensures Key(m) == id
  {
  }

  // ---------- the three stages ----------

  function Keys(ms: seq<Message>): set<string> { set m | m in ms :: Key(m) }

  function Ids(ms: seq<Message>): set<string> { set m | m in ms && Id(m) != "" :: Id(m) }

  function Unique(ms: seq<Message>): seq<Message> {
    if ms == [] then []
    else
      var before, last := Unique(ms[..|ms| - 1]), ms[|ms| - 1];
      if Key(last) in Keys(ms[..|ms| - 1]) then before else before + [last]
  }

  /** A stable sort: later messages go behind earlier ones of the same time. */
  function Sort(ms: seq<Message>, parse: IntParser): seq<Message> {
    if ms == [] then [] else Insert(Sort(ms[..|ms| - 1], parse), ms[|ms| - 1], parse)
  }

  function Insert(sorted: seq<Message>, m: Message, parse: IntParser): seq<Message> {
    if sorted == [] || Time(sorted[|sorted| - 1], parse) <= Time(m, parse) then sorted + [m]
    else Insert(sorted[..|sorted| - 1], m, parse) + [sorted[|sorted| - 1]]
  }

  function Conversations(ms: seq<Message>): seq<Message> {
    if ms == [] then []
    else
      var before, last := Conversations(ms[..|ms| - 1]), ms[|ms| - 1];
      if IsInternalMemo(last) then before else before + [last]
  }

  function Memos(ms: seq<Message>): seq<Message> {
    if ms == [] then []
    else
      var before, last := Memos(ms[..|ms| - 1]), ms[|ms| - 1];
      if IsInternalMemo(last) then before + [last] else before
  }

  function Trimmed(ms: seq<Message>): seq<Message> {
    if |ms| > MIN_MESSAGES_FOR_CLEANUP then Conversations(ms) else ms
  }

  function Migrated(ms: seq<Message>, parse: IntParser): seq<Message> { Trimmed(Sort(Unique(ms), parse)) }

  method Deduplicate(ms: seq<Message>) returns (unique: seq<Message>)
    ensures unique == Unique(ms)
  {
    var seen: set<string> := {};
    unique := [];
    for i := 0 to |ms|
      invariant seen == Keys(ms[..i]) && unique == Unique(ms[..i])
    {
      UniqueNext(ms, i);
      var key := Key(ms[i]);
      if key !in seen {
        seen := seen + {key};
        unique := unique + [ms[i]];
      }
    }
    assert ms[..|ms|] == ms;
  }

  method SeparateMemos(ms: seq<Message>) returns (conversations: seq<Message>, memos: seq<Message>)
    ensures conversations == Conversations(ms) && memos == Memos(ms)
  {
    conversations, memos := [], [];
    for i := 0 to |ms|
      invariant conversations == Conversations(ms[..i]) && memos == Memos(ms[..i])
    {
      assert ms[..i + 1][..i] == ms[..i];
      if IsInternalMemo(ms[i]) {
        memos := memos + [ms[i]];
      } else {
        conversations := conversations + [ms[i]];
      }
    }
    assert ms[..|ms|] == ms;
  }

  /** `parse` is what int() makes of a string. */
  method ApplyMigrationAlgorithm(ms: seq<Message>, parse: IntParser) returns (r: MigrationResult)
    ensures r.finalMessages == Migrated(ms, parse)
    ensures r.originalCount == |ms| && r.deduplicatedCount == |Unique(ms)| && r.finalCount == |r.finalMessages|
    ensures r.originalCount == r.finalCount + r.duplicatesRemoved + r.oldMessagesRemoved
    ensures r.duplicatesRemoved >= 0
    ensures r.oldMessagesRemoved
            == if |Unique(ms)| > 25 then |Memos(Unique(ms))| else 0
    ensures r.uniqueConversationIds == Ids(Unique(ms))
  {
    var unique := Deduplicate(ms);
    SortPermutes(unique, parse);
    UniqueIsShorter(ms);
    IdsOfPermutation(unique, Sort(unique, parse));
    MemosOfPermutation(unique, Sort(unique, parse));
    unique := Sort(unique, parse);
    SplitCounts(unique);
    var final, removed := unique, 0;
    if |unique| > MIN_MESSAGES_FOR_CLEANUP {
      var conversations, memos := SeparateMemos(unique);
      final, removed := conversations, |memos|;
    }
    r := MigrationResult(|ms|, |unique|, |final|, |ms| - |unique|, removed, Ids(unique), final);
  }

  lemma UniqueNext(ms: seq<Message>, i: nat)
    requires i < |ms|
    ensures var before := ms[..i];
            && Unique(ms[..i + 1]) == (if Key(ms[i]) in Keys(before) then Unique(before) else Unique(before) + [ms[i]])
            && Keys(ms[..i + 1]) == (if Key(ms[i]) in Keys(before) then Keys(before) else Keys(before) + {Key(ms[i])})
  {
    assert ms[..i + 1][..i] == ms[..i];
    assert ms[..i + 1] == ms[..i] + [ms[i]];
    KeysSnoc(ms[..i], ms[i]);
    if Key(ms[i]) in Keys(ms[..i]) { assert Keys(ms[..i]) + {Key(ms[i])} == Keys(ms[..i]); }
  }

  // ---------- first stage ----------

  ghost predicate KeysDistinct(ms: seq<Message>) {
    forall i, j | 0 <= i < j < |ms| :: Key(ms[i]) != Key(ms[j])
  }

  /** The first message with its key. */
  ghost predicate FirstOfKey(ms: seq<Message>, i: nat)
    requires i < |ms|
  {
    Key(ms[i]) !in Keys(ms[..i])
  }

  lemma KeysSnoc(ms: seq<Message>, m: Message)
    ensures Keys(ms + [m]) == Keys(ms) + {Key(m)}
  {
    forall key ensures key in Keys(ms + [m]) <==> key in Keys(ms) + {Key(m)} {
      if x :| x in ms && Key(x) == key { assert x in ms + [m]; }
      assert m in ms + [m];
    }
  }

  lemma {:induction false} UniqueIsShorter(ms: seq<Message>)
    ensures |Unique(ms)| <= |ms|
  {
    if ms != [] {
      UniqueIsShorter(ms[..|ms| - 1]);
    }
  }

  /** Deduplication keeps every key, once. */
  lemma {:induction false} UniqueKeepsKeys(ms: seq<Message>)
    ensures Keys(Unique(ms)) == Keys(ms) && KeysDistinct(Unique(ms))
  {
    if ms != [] {
      var front, last := ms[..|ms| - 1], ms[|ms| - 1];
      UniqueKeepsKeys(front);
      assert ms == front + [last];
      KeysSnoc(front, last);
      if Key(last) in Keys(front) {
        assert Keys(front) + {Key(last)} == Keys(front);
      } else {
        KeysSnoc(Unique(front), last);
        forall i | 0 <= i < |Unique(front)| ensures Key(Unique(front)[i]) != Key(last) {
          assert Key(Unique(front)[i]) in Keys(Unique(front));
        }
      }
    }
  }

  ghost predicate IsFirst(ms: seq<Message>, m: Message) { exists i | 0 <= i < |ms| :: ms[i] == m && FirstOfKey(ms, i) }

  lemma FirstsSnoc(front: seq<Message>, last: Message, m: Message)
    ensures IsFirst(front + [last], m) <==> IsFirst(front, m) || (m == last && Key(last) !in Keys(front))
  {
    var ms, n := front + [last], |front|;
    assert ms[..n] == front;
    forall i | 0 <= i < n ensures ms[..i] == front[..i] {}
    if i :| 0 <= i < n && front[i] == m && FirstOfKey(front, i) {
      assert ms[i] == m && FirstOfKey(ms, i);
    }
    if m == last && Key(last) !in Keys(front) {
      assert ms[n] == m && FirstOfKey(ms, n);
    }
    if i :| 0 <= i < |ms| && ms[i] == m && FirstOfKey(ms, i) {
      if i < n { assert front[i] == m && FirstOfKey(front, i); }
    }
  }

  /** And it is the first message of each key that stays. */
  lemma {:induction false} UniqueKeepsFirsts(ms: seq<Message>, m: Message)
    ensures m in Unique(ms) <==> IsFirst(ms, m)
  {
    if ms != [] {
      var front, last := ms[..|ms| - 1], ms[|ms| - 1];
      UniqueKeepsFirsts(front, m);
      assert ms == front + [last];
      FirstsSnoc(front, last, m);
    }
  }

  lemma SameKeyIsSame(ms: seq<Message>, m: Message, x: Message)
    requires KeysDistinct(ms) && m in ms && x in ms && Key(m) == Key(x)
    ensures m == x
  {
  }

  lemma LastKeyIsNew(ms: seq<Message>)
    requires KeysDistinct(ms) && ms != []
    ensures Key(ms[|ms| - 1]) !in Keys(ms[..|ms| - 1])
  {
  }

  lemma {:induction false} UniqueOfDistinct(ms: seq<Message>)
    requires KeysDistinct(ms)
    ensures Unique(ms) == ms
  {
    if ms != [] {
      UniqueOfDistinct(ms[..|ms| - 1]);
      LastKeyIsNew(ms);
    }
  }

  /** No message without an id is the first to take a key that is some message's id. */
  ghost predicate NoIdShadowed(ms: seq<Message>) {
    forall i | 0 <= i < |ms| && Id(ms[i]) == "" && FirstOfKey(ms, i) :: Key(ms[i]) !in Ids(ms)
  }

  /** Deduplication can lose a conversation id: exactly when the fallback key of an earlier message
      without one happens to equal it. */
  lemma EveryIdKeptIffNoneShadowed(ms: seq<Message>)
    ensures Ids(Unique(ms)) == Ids(ms) <==> NoIdShadowed(ms)
  {
    if NoIdShadowed(ms) { KeptWhenNotShadowed(ms); }
    if Ids(Unique(ms)) == Ids(ms) { NotShadowedWhenKept(ms); }
  }

  lemma ShadowedIdIsLost(x: Message, y: Message)
    requires Id(x) == "" && Id(y) == Key(x)
    ensures Id(y) in Ids([x, y]) && Ids(Unique([x, y])) == {}
  {
    assert Key(x)[|Key(x)| - 1] == '0';
    assert [x, y][..1] == [x] && [x][..0] == [];
    assert Key(y) == Key(x);
    assert x in [x] && y in [x, y];
    assert Key(y) in Keys([x]);
    assert Unique([]) == [] && Unique([x]) == [x];
    assert Unique([x, y]) == Unique([x, y][..1]);
  }

  lemma KeptWhenNotShadowed(ms: seq<Message>)
    requires NoIdShadowed(ms)
    ensures Ids(Unique(ms)) == Ids(ms)
  {
    UniqueKeepsKeys(ms);
    forall id ensures id in Ids(Unique(ms)) <==> id in Ids(ms) {
      if m :| m in Unique(ms) && Id(m) != "" && Id(m) == id {
        UniqueKeepsFirsts(ms, m);
        assert m in ms;
      }
      if m :| m in ms && Id(m) != "" && Id(m) == id {
        assert Key(m) in Keys(ms);
        var first :| first in Unique(ms) && Key(first) == id;
        UniqueKeepsFirsts(ms, first);
        var i :| 0 <= i < |ms| && ms[i] == first && FirstOfKey(ms, i);
        assert Id(ms[i]) == id;
      }
    }
  }

  lemma NotShadowedWhenKept(ms: seq<Message>)
    requires Ids(Unique(ms)) == Ids(ms)
    ensures NoIdShadowed(ms)
  {
    UniqueKeepsKeys(ms);
    forall i | 0 <= i < |ms| && Id(ms[i]) == "" && FirstOfKey(ms, i) ensures Key(ms[i]) !in Ids(ms) {
      UniqueKeepsFirsts(ms, ms[i]);
      if m :| m in Unique(ms) && Id(m) != "" && Id(m) == Key(ms[i]) {
        SameKeyIsSame(Unique(ms), m, ms[i]);
        assert false;
      }
    }
  }

  lemma IdsOfPermutation(xs: seq<Message>, ys: seq<Message>)
    requires multiset(xs) == multiset(ys)
    ensures Ids(xs) == Ids(ys)
  {
    SameMembers(xs, ys);
  }

  lemma SameMembers(xs: seq<Message>, ys: seq<Message>)
    requires multiset(xs) == multiset(ys)
    ensures forall m :: m in xs <==> m in ys
  {
    assert forall m :: m in xs <==> m in multiset(xs);
    assert forall m :: m in ys <==> m in multiset(ys);
  }

  // ---------- second stage ----------

  ghost predicate Sorted(ms: seq<Message>, parse: IntParser) {
    forall i, j | 0 <= i < j < |ms| :: Time(ms[i], parse) <= Time(ms[j], parse)
  }

  /** The messages of one time, in order. */
  function At(ms: seq<Message>, time: int, parse: IntParser): seq<Message> {
    if ms == [] then []
    else
      var before, last := At(ms[..|ms| - 1], time, parse), ms[|ms| - 1];
      if Time(last, parse) == time then before + [last] else before
  }

  lemma {:induction false} InsertPermutes(sorted: seq<Message>, m: Message, parse: IntParser)
    ensures multiset(Insert(sorted, m, parse)) == multiset(sorted) + multiset{m}
  {
    if sorted != [] {
      var n := |sorted| - 1;
      assert sorted == sorted[..n] + [sorted[n]];
      if Time(sorted[n], parse) > Time(m, parse) { InsertPermutes(sorted[..n], m, parse); }
    }
  }

  lemma {:induction false} SortPermutes(ms: seq<Message>, parse: IntParser)
    ensures multiset(Sort(ms, parse)) == multiset(ms)
    ensures |Sort(ms, parse)| == |ms|
  {
    if ms != [] {
      var n := |ms| - 1;
      SortPermutes(ms[..n], parse);
      InsertPermutes(Sort(ms[..n], parse), ms[n], parse);
      assert ms == ms[..n] + [ms[n]];
    }
    assert |multiset(Sort(ms, parse))| == |Sort(ms, parse)|;
  }

  lemma {:induction false} InsertMembers(sorted: seq<Message>, m: Message, parse: IntParser)
    ensures forall x | x in Insert(sorted, m, parse) :: x in sorted || x == m
  {
    if sorted != [] {
      InsertMembers(sorted[..|sorted| - 1], m, parse);
    }
  }

  lemma SortedSnoc(ms: seq<Message>, m: Message, parse: IntParser)
    requires Sorted(ms, parse) && forall x | x in ms :: Time(x, parse) <= Time(m, parse)
    ensures Sorted(ms + [m], parse)
  {
  }

  lemma SortedAbove(ms: seq<Message>, parse: IntParser)
    requires Sorted(ms, parse) && ms != []
    ensures forall x | x in ms :: Time(x, parse) <= Time(ms[|ms| - 1], parse)
  {
  }

  lemma {:induction false} InsertSorts(sorted: seq<Message>, m: Message, parse: IntParser)
    requires Sorted(sorted, parse)
    ensures Sorted(Insert(sorted, m, parse), parse)
  {
    if sorted == [] {
    } else {
      var n := |sorted| - 1;
      SortedAbove(sorted, parse);
      if Time(sorted[n], parse) <= Time(m, parse) {
        SortedSnoc(sorted, m, parse);
      } else {
        InsertSorts(sorted[..n], m, parse);
        InsertMembers(sorted[..n], m, parse);
        SortedSnoc(Insert(sorted[..n], m, parse), sorted[n], parse);
      }
    }
  }

  lemma {:induction false} SortSorts(ms: seq<Message>, parse: IntParser)
    ensures Sorted(Sort(ms, parse), parse)
  {
    if ms != [] {
      SortSorts(ms[..|ms| - 1], parse);
      InsertSorts(Sort(ms[..|ms| - 1], parse), ms[|ms| - 1], parse);
    }
  }

  lemma AtSnoc(ms: seq<Message>, m: Message, time: int, parse: IntParser)
    ensures At(ms + [m], time, parse)
            == if Time(m, parse) == time then At(ms, time, parse) + [m] else At(ms, time, parse)
  {
    assert (ms + [m])[..|ms|] == ms;
  }

  lemma {:induction false} InsertIsStable(sorted: seq<Message>, m: Message, time: int, parse: IntParser)
    ensures At(Insert(sorted, m, parse), time, parse) == At(sorted + [m], time, parse)
  {
    AtSnoc(sorted, m, time, parse);
    if sorted != [] && Time(sorted[|sorted| - 1], parse) > Time(m, parse) {
      var front, last := sorted[..|sorted| - 1], sorted[|sorted| - 1];
      InsertIsStable(front, m, time, parse);
      AtSnoc(front, m, time, parse);
      AtSnoc(Insert(front, m, parse), last, time, parse);
    }
  }

  /** Messages of the same time stay in the order they came in. */
  lemma {:induction false} SortIsStable(ms: seq<Message>, time: int, parse: IntParser)
    ensures At(Sort(ms, parse), time, parse) == At(ms, time, parse)
  {
    if ms != [] {
      var front, last := ms[..|ms| - 1], ms[|ms| - 1];
      SortIsStable(front, time, parse);
      InsertIsStable(Sort(front, parse), last, time, parse);
      AtSnoc(Sort(front, parse), last, time, parse);
    }
  }

  lemma {:induction false} SortOfSorted(ms: seq<Message>, parse: IntParser)
    requires Sorted(ms, parse)
    ensures Sort(ms, parse) == ms
  {
    if ms != [] {
      SortOfSorted(ms[..|ms| - 1], parse);
    }
  }

  lemma KeysDistinctAsCounts(xs: seq<Message>, ys: seq<Message>)
    requires KeysDistinct(xs) && multiset(xs) == multiset(ys)
    ensures KeysDistinct(ys)
  {
    forall i, j | 0 <= i < j < |ys| ensures Key(ys[i]) != Key(ys[j]) {
      if Key(ys[i]) == Key(ys[j]) {
        SameMembers(xs, ys);
        assert ys[i] in ys && ys[j] in ys;
        var k :| 0 <= k < |xs| && xs[k] == ys[i];
        var l :| 0 <= l < |xs| && xs[l] == ys[j];
        TwiceCounted(ys, i, j);
        OnceCounted(xs, k);
      }
    }
  }

  lemma TwiceCounted(ms: seq<Message>, i: nat, j: nat)
    requires i < j < |ms| && ms[i] == ms[j]
    ensures multiset(ms)[ms[i]] >= 2
  {
    assert ms == ms[..j] + ms[j..];
    assert ms[i] in ms[..j] && ms[j] in ms[j..];
  }

  lemma OnceCounted(ms: seq<Message>, k: nat)
    requires k < |ms| && KeysDistinct(ms)
    ensures multiset(ms)[ms[k]] == 1
  {
    assert ms == ms[..k] + [ms[k]] + ms[k + 1..];
    assert ms[k] !in ms[..k] && ms[k] !in ms[k + 1..];
  }

  // ---------- third stage ----------

  lemma {:induction false} SplitCounts(ms: seq<Message>)
    ensures |Conversations(ms)| + |Memos(ms)| == |ms|
  {
    if ms != [] {
      SplitCounts(ms[..|ms| - 1]);
    }
  }

  lemma {:induction false} MemosAsMultiset(ms: seq<Message>)
    ensures forall m :: multiset(Memos(ms))[m] == if IsInternalMemo(m) then multiset(ms)[m] else 0
  {
    if ms != [] {
      var front, last := ms[..|ms| - 1], ms[|ms| - 1];
      MemosAsMultiset(front);
      assert ms == front + [last];
    }
  }

  lemma MemosOfPermutation(xs: seq<Message>, ys: seq<Message>)
    requires multiset(xs) == multiset(ys)
    ensures |Memos(xs)| == |Memos(ys)|
  {
    MemosAsMultiset(xs);
    MemosAsMultiset(ys);
    assert multiset(Memos(xs)) == multiset(Memos(ys));
    assert |multiset(Memos(xs))| == |Memos(xs)| && |multiset(Memos(ys))| == |Memos(ys)|;
  }

  /** The conversations are the messages that are not memos. */
  lemma {:induction false} ConversationsAreMembers(ms: seq<Message>)
    ensures forall m :: m in Conversations(ms) <==> m in ms && !IsInternalMemo(m)
    ensures |Conversations(ms)| <= |ms|
  {
    if ms != [] {
      ConversationsAreMembers(ms[..|ms| - 1]);
      assert ms == ms[..|ms| - 1] + [ms[|ms| - 1]];
    }
  }

  lemma {:induction false} ConversationsStaySorted(ms: seq<Message>, parse: IntParser)
    requires Sorted(ms, parse)
    ensures Sorted(Conversations(ms), parse)
  {
    if ms != [] {
      var front, last := ms[..|ms| - 1], ms[|ms| - 1];
      ConversationsStaySorted(front, parse);
      ConversationsAreMembers(front);
      forall i | 0 <= i < |Conversations(front)| ensures Time(Conversations(front)[i], parse) <= Time(last, parse) {
        assert Conversations(front)[i] in front;
      }
    }
  }

  lemma {:induction false} ConversationsStayDistinct(ms: seq<Message>)
    requires KeysDistinct(ms)
    ensures KeysDistinct(Conversations(ms))
  {
    if ms != [] {
      var front, last := ms[..|ms| - 1], ms[|ms| - 1];
      ConversationsStayDistinct(front);
      ConversationsAreMembers(front);
      forall i | 0 <= i < |Conversations(front)| ensures Key(Conversations(front)[i]) != Key(last) {
        assert Conversations(front)[i] in front;
      }
    }
  }

  lemma {:induction false} ConversationsOfConversations(ms: seq<Message>)
    requires forall m | m in ms :: !IsInternalMemo(m)
    ensures Conversations(ms) == ms
  {
    if ms != [] {
      ConversationsOfConversations(ms[..|ms| - 1]);
    }
  }

  // ---------- the whole ----------

  /** The result is in order of time and repeats no key. */
  lemma MigratedIsSortedAndDistinct(ms: seq<Message>, parse: IntParser)
    ensures Sorted(Migrated(ms, parse), parse) && KeysDistinct(Migrated(ms, parse))
  {
    var unique := Unique(ms);
    UniqueKeepsKeys(ms);
    SortPermutes(unique, parse);
    KeysDistinctAsCounts(unique, Sort(unique, parse));
    SortSorts(unique, parse);
    ConversationsStaySorted(Sort(unique, parse), parse);
    ConversationsStayDistinct(Sort(unique, parse));
  }

  /** Exactly these messages survive: the first of each key, memos only in histories of at most 25 keys. */
  lemma MigratedKeepsExactly(ms: seq<Message>, parse: IntParser, m: Message)
    ensures m in Migrated(ms, parse)
            <==> IsFirst(ms, m) && (IsInternalMemo(m) ==> |Keys(ms)| <= 25)
  {
    var unique := Unique(ms);
    UniqueKeepsFirsts(ms, m);
    UniqueKeepsKeys(ms);
    CountOfDistinct(unique);
    SortPermutes(unique, parse);
    SameMembers(unique, Sort(unique, parse));
    ConversationsAreMembers(Sort(unique, parse));
  }

  lemma {:induction false} CountOfDistinct(ms: seq<Message>)
    requires KeysDistinct(ms)
    ensures |Keys(ms)| == |ms|
  {
    if ms != [] {
      var front, last := ms[..|ms| - 1], ms[|ms| - 1];
      CountOfDistinct(front);
      assert ms == front + [last];
      KeysSnoc(front, last);
      LastKeyIsNew(ms);
    }
  }

  /** Messages of the same time keep their order. */
  lemma MigratedKeepsOrder(ms: seq<Message>, time: int, parse: IntParser)
    ensures At(Migrated(ms, parse), time, parse) == At(Trimmed(Unique(ms)), time, parse)
  {
    var unique := Unique(ms);
    SortPermutes(unique, parse);
    SortIsStable(unique, time, parse);
    AtConversations(unique, time, parse);
    AtConversations(Sort(unique, parse), time, parse);
  }

  lemma {:induction false} AtConversations(ms: seq<Message>, time: int, parse: IntParser)
    ensures At(Conversations(ms), time, parse) == Conversations(At(ms, time, parse))
  {
    if ms != [] {
      var front, last := ms[..|ms| - 1], ms[|ms| - 1];
      AtConversations(front, time, parse);
      AtSnoc(Conversations(front), last, time, parse);
      assert (At(front, time, parse) + [last])[..|At(front, time, parse)|] == At(front, time, parse);
    }
  }

  /** Migrating what was migrated changes nothing. */
  lemma MigrationIsIdempotent(ms: seq<Message>, parse: IntParser)
    ensures Migrated(Migrated(ms, parse), parse) == Migrated(ms, parse)
  {
    var once := Migrated(ms, parse);
    MigratedIsSortedAndDistinct(ms, parse);
    UniqueOfDistinct(once);
    SortOfSorted(once, parse);
    var sorted := Sort(Unique(ms), parse);
    ConversationsAreMembers(sorted);
    if |sorted| > MIN_MESSAGES_FOR_CLEANUP {
      ConversationsOfConversations(once);
    }
  }
}
