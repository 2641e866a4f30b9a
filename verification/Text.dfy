/** The string operations of the host language that the modelled code relies on. */
module Text {

  /** JavaScript's String.split with a one-character separator. */
  function Split(s: string, sep: char): (parts: seq<string>)
    ensures |parts| >= 1
  {
    if s == "" then [""]
    else
      var rest := Split(s[1..], sep);
      if s[0] == sep then [""] + rest else [[s[0]] + rest[0]] + rest[1..]
  }

  /** Only the last part is still open when more text arrives. */
  lemma {:induction false} SplitAppend(a: string, b: string, sep: char)
    ensures var parts := Split(a, sep);
            Split(a + b, sep) == parts[..|parts| - 1] + Split(parts[|parts| - 1] + b, sep)
  {
    if a == "" {
      assert a + b == b;
    } else {
      assert (a + b)[1..] == a[1..] + b && (a + b)[0] == a[0];
      SplitAppend(a[1..], b, sep);
      if a[0] == sep {
        AppendAfterSeparator(Split(a[1..], sep), b, sep);
      } else {
        AppendAfterChar(a[0], Split(a[1..], sep), b, sep);
      }
    }
  }

  lemma AppendAfterSeparator(rest: seq<string>, b: string, sep: char)
    requires |rest| >= 1
    ensures var parts := [""] + rest;
            [""] + (rest[..|rest| - 1] + Split(rest[|rest| - 1] + b, sep))
            == parts[..|parts| - 1] + Split(parts[|parts| - 1] + b, sep)
  {
    var parts := [""] + rest;
    assert parts[..|rest|] == [""] + rest[..|rest| - 1] && parts[|rest|] == rest[|rest| - 1];
  }

  lemma AppendAfterChar(c: char, rest: seq<string>, b: string, sep: char)
    requires |rest| >= 1 && c != sep
    ensures var whole := rest[..|rest| - 1] + Split(rest[|rest| - 1] + b, sep);
            var parts := [[c] + rest[0]] + rest[1..];
            [[c] + whole[0]] + whole[1..] == parts[..|parts| - 1] + Split(parts[|parts| - 1] + b, sep)
  {
    if |rest| == 1 {
      var last := [c] + rest[0];
      assert (last + b)[1..] == rest[0] + b && (last + b)[0] == c;
    } else {
      PrependChar(c, rest, Split(rest[|rest| - 1] + b, sep));
    }
  }

  lemma PrependChar(c: char, parts: seq<string>, more: seq<string>)
    requires |parts| >= 2
    ensures var whole := parts[..|parts| - 1] + more;
            var longer := [[c] + parts[0]] + parts[1..];
            [[c] + whole[0]] + whole[1..] == longer[..|parts| - 1] + more && longer[|parts| - 1] == parts[|parts| - 1]
  {
  }

  lemma {:induction false} SplitNone(s: string, sep: char)
    requires sep !in s
    ensures Split(s, sep) == [s]
  {
    if s != "" {
      assert s == [s[0]] + s[1..];
      SplitNone(s[1..], sep);
    }
  }

  lemma {:induction false} SplitFirst(a: string, b: string, sep: char)
    requires sep !in a
    ensures Split(a + [sep] + b, sep) == [a] + Split(b, sep)
  {
    var s := a + [sep] + b;
    if a == "" {
      assert s[1..] == b;
    } else {
      assert a == [a[0]] + a[1..];
      assert s[1..] == a[1..] + [sep] + b;
      SplitFirst(a[1..], b, sep);
    }
  }

  /** The parts of a split do not contain the separator. */
  lemma {:induction false} PartsHaveNoSeparator(s: string, sep: char)
    ensures forall part | part in Split(s, sep) :: sep !in part
  {
    if s != "" {
      PartsHaveNoSeparator(s[1..], sep);
    }
  }

  lemma LastPartIsOpen(s: string, sep: char)
    ensures var parts := Split(s, sep); sep !in parts[|parts| - 1]
  {
    PartsHaveNoSeparator(s, sep);
    var parts := Split(s, sep);
    assert parts[|parts| - 1] in parts;
  }

  /** White space and line terminators, as String.trim removes them. */
  predicate IsSpace(c: char) {
    || '\t' <= c <= '\r' || c == ' '
    || c == '\U{00A0}' || c == '\U{1680}' || '\U{2000}' <= c <= '\U{200A}'
    || c == '\U{2028}' || c == '\U{2029}' || c == '\U{202F}' || c == '\U{205F}' || c == '\U{3000}' || c == '\U{FEFF}'
  }

  lemma SpacesAre(c: char)
    ensures IsSpace(c)
            <==> c as int in {9, 10, 11, 12, 13, 32, 0xA0, 0x1680, 0x2000, 0x2001, 0x2002, 0x2003, 0x2004, 0x2005,
                              0x2006, 0x2007, 0x2008, 0x2009, 0x200A, 0x2028, 0x2029, 0x202F, 0x205F, 0x3000, 0xFEFF}
  {
  }

  function TrimStart(s: string): string {
    if s != "" && IsSpace(s[0]) then TrimStart(s[1..]) else s
  }

  function TrimEnd(s: string): string {
    if s != "" && IsSpace(s[|s| - 1]) then TrimEnd(s[..|s| - 1]) else s
  }

  function Trim(s: string): string { TrimEnd(TrimStart(s)) }

  /** Trimming takes away white space at both ends, and all of it. */
  lemma TrimTakesSpaceOnly(s: string) returns (before: string, after: string)
    ensures s == before + Trim(s) + after
    ensures (forall c | c in before + after :: IsSpace(c))
    ensures Trim(s) != "" ==> !IsSpace(Trim(s)[0]) && !IsSpace(Trim(s)[|Trim(s)| - 1])
  {
    before := TrimStartTakes(s);
    after := TrimEndTakes(TrimStart(s));
    assert s == before + (Trim(s) + after) == before + Trim(s) + after;
    if Trim(s) != "" { assert Trim(s)[0] == TrimStart(s)[0]; }
  }

  lemma {:induction false} TrimStartTakes(s: string) returns (before: string)
    ensures s == before + TrimStart(s) && (forall c | c in before :: IsSpace(c))
    ensures TrimStart(s) != "" ==> !IsSpace(TrimStart(s)[0])
  {
    if s != "" && IsSpace(s[0]) {
      before := TrimStartTakes(s[1..]);
      before := [s[0]] + before;
    } else {
      before := "";
    }
  }

  lemma {:induction false} TrimEndTakes(s: string) returns (after: string)
    ensures s == TrimEnd(s) + after && (forall c | c in after :: IsSpace(c))
    ensures TrimEnd(s) != "" ==> !IsSpace(TrimEnd(s)[|TrimEnd(s)| - 1])
  {
    if s != "" && IsSpace(s[|s| - 1]) {
      after := TrimEndTakes(s[..|s| - 1]);
      after := after + [s[|s| - 1]];
    } else {
      after := "";
    }
  }

  function Concat(chunks: seq<string>): string {
    if chunks == [] then "" else Concat(chunks[..|chunks| - 1]) + chunks[|chunks| - 1]
  }

  lemma {:induction false} ConcatAppend(a: seq<string>, b: seq<string>)
    ensures Concat(a + b) == Concat(a) + Concat(b)
  {
    if b == [] {
      assert a + b == a;
    } else {
      assert (a + b)[..|a + b| - 1] == a + b[..|b| - 1];
      ConcatAppend(a, b[..|b| - 1]);
    }
  }

  /** Where a character stands among all others by its first UTF-16 code units: the characters written with
      surrogates come between those below and those above the surrogates. */
  function Rank(c: char): nat {
    if 0xE000 <= c as nat <= 0xFFFF then c as nat + 0x110000 else c as nat
  }

  /** Comparison by UTF-16 code units, as the default sort does it. */
  predicate Before(a: string, b: string) {
    b != "" && (a == "" || Rank(a[0]) < Rank(b[0]) || (a[0] == b[0] && Before(a[1..], b[1..])))
  }

  function CharUnits(c: char): seq<nat> {
    var n := c as nat;
    if n < 0x10000 then [n] else [0xD800 + (n - 0x10000) / 0x400, 0xDC00 + (n - 0x10000) % 0x400]
  }

  function Units(s: string): seq<nat> {
    if s == "" then [] else CharUnits(s[0]) + Units(s[1..])
  }

  predicate UnitsBefore(a: seq<nat>, b: seq<nat>) {
    b != [] && (a == [] || a[0] < b[0] || (a[0] == b[0] && UnitsBefore(a[1..], b[1..])))
  }

  lemma UnitsAfterSame(c: char, a: seq<nat>, b: seq<nat>)
    ensures UnitsBefore(CharUnits(c) + a, CharUnits(c) + b) <==> UnitsBefore(a, b)
  {
    var units := CharUnits(c);
    if |units| == 1 {
      assert (units + a)[1..] == a && (units + b)[1..] == b;
    } else {
      assert (units + a)[1..] == [units[1]] + a && (units + b)[1..] == [units[1]] + b;
      assert ([units[1]] + a)[1..] == a && ([units[1]] + b)[1..] == b;
    }
  }

  lemma UnitsOfDifferent(c: char, d: char, a: seq<nat>, b: seq<nat>)
    requires c != d
    ensures UnitsBefore(CharUnits(c) + a, CharUnits(d) + b) <==> Rank(c) < Rank(d)
  {
    var x, y := CharUnits(c), CharUnits(d);
    if |x| == 2 && |y| == 2 && x[0] == y[0] {
      assert (x + a)[1..] == [x[1]] + a && (y + b)[1..] == [y[1]] + b;
      assert x[1] != y[1];
    }
  }

  /** The comparison is that of the strings' code units, one by one. */
  lemma {:induction false} BeforeIsUnitOrder(a: string, b: string)
    ensures Before(a, b) <==> UnitsBefore(Units(a), Units(b))
  {
    if a != "" && b != "" {
      if a[0] == b[0] {
        BeforeIsUnitOrder(a[1..], b[1..]);
        UnitsAfterSame(a[0], Units(a[1..]), Units(b[1..]));
      } else {
        UnitsOfDifferent(a[0], b[0], Units(a[1..]), Units(b[1..]));
      }
    }
  }

  lemma {:induction false} BeforeIsTotal(a: string, b: string)
    ensures a == b || Before(a, b) || Before(b, a)
  {
    if a != "" && b != "" && a[0] == b[0] {
      BeforeIsTotal(a[1..], b[1..]);
      assert a == [a[0]] + a[1..] && b == [b[0]] + b[1..];
    }
  }

  lemma {:induction false} BeforeIsTransitive(a: string, b: string, c: string)
    requires Before(a, b) && Before(b, c)
    ensures Before(a, c)
  {
    if a != "" && a[0] == b[0] == c[0] {
      BeforeIsTransitive(a[1..], b[1..], c[1..]);
    }
  }

  lemma {:induction false} BeforeIsStrict(a: string)
    ensures !Before(a, a)
  {
    if a != "" {
      BeforeIsStrict(a[1..]);
    }
  }
}
