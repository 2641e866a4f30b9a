/** Lines out of a chunked stream: the supervisor's framer for child output
    and the SDK's newline-delimited JSON parser. */
module LineFraming {
  import opened Common
  import opened Text

  /** A trimmed line, unless nothing is left of it. */
  function Clean(line: string): seq<string> {
    if Trim(line) == "" then [] else [Trim(line)]
  }

  /** The non-empty trimmed lines, in order. */
  function Keep(lines: seq<string>): seq<string> {
    if lines == [] then [] else Keep(lines[..|lines| - 1]) + Clean(lines[|lines| - 1])
  }

  lemma {:induction false} KeepAppend(a: seq<string>, b: seq<string>)
    ensures Keep(a + b) == Keep(a) + Keep(b)
  {
    if b == [] {
      assert a + b == a;
    } else {
      assert (a + b)[..|a + b| - 1] == a + b[..|b| - 1];
      KeepAppend(a, b[..|b| - 1]);
    }
  }

  lemma KeepSnoc(lines: seq<string>, line: string)
    ensures Keep(lines + [line]) == Keep(lines) + Clean(line)
  {
    assert (lines + [line])[..|lines|] == lines;
  }

  lemma Associate(a: seq<string>, b: seq<string>, line: string)
    ensures a + b + [line] == a + (b + [line])
  {
  }

  lemma KeepNext(lines: seq<string>, i: nat)
    requires i < |lines|
    ensures Keep(lines[..i + 1])
            == if Trim(lines[i]) == "" then Keep(lines[..i]) else Keep(lines[..i]) + [Trim(lines[i])]
  {
    assert lines[..i + 1] == lines[..i] + [lines[i]];
    KeepSnoc(lines[..i], lines[i]);
  }

  /** The complete lines of a text, and the unfinished one after the last newline. */
  function Closed(text: string): seq<string> {
    var parts := Split(text, '\n');
    parts[..|parts| - 1]
  }

  function Open(text: string): string {
    var parts := Split(text, '\n');
    parts[|parts| - 1]
  }

  /** What both framers are meant to find in a whole text. */
  function Lines(text: string): seq<string> { Keep(Split(text, '\n')) }

  lemma LinesAre(text: string)
    ensures Lines(text) == Keep(Closed(text)) + Clean(Open(text))
  {
    assert Split(text, '\n') == Closed(text) + [Open(text)];
    KeepSnoc(Closed(text), Open(text));
  }

  /** More text only concerns the unfinished line. */
  lemma MoreText(text: string, more: string)
    ensures Closed(text + more) == Closed(text) + Closed(Open(text) + more)
    ensures Open(text + more) == Open(Open(text) + more)
  {
    SplitAppend(text, more, '\n');
  }

  lemma FirstLine(line: string, rest: string)
    requires '\n' !in line
    ensures Closed(line + "\n" + rest) == [line] + Closed(rest) && Open(line + "\n" + rest) == Open(rest)
  {
    SplitFirst(line, rest, '\n');
  }

  lemma NoLine(text: string)
    requires '\n' !in text
    ensures Closed(text) == [] && Open(text) == text
  {
    SplitNone(text, '\n');
  }

  // ---------- the supervisor ----------

  class StreamFramer {
    var buffer: string
    var output: seq<string>

    constructor ()
      ensures buffer == "" && output == []
    {
      buffer, output := "", [];
    }

    method ProcessStreamData(decoded: string)
      modifies this
      ensures (buffer, output) == Feed(old(buffer), old(output), decoded)
    {
      var content := buffer + decoded;
      var lines := Split(content, '\n');
      buffer := lines[|lines| - 1];
      lines := lines[..|lines| - 1];
      ProcessLines(lines);
    }

    /** The loop over the complete lines of a chunk. */
    method ProcessLines(lines: seq<string>)
      modifies `output
      ensures output == old(output) + Keep(lines)
    {
      for i := 0 to |lines|
        invariant output == old(output) + Keep(lines[..i])
      {
        KeepNext(lines, i);
        var trimmedLine := Trim(lines[i]);
        if trimmedLine == "" { continue; }
        Associate(old(output), Keep(lines[..i]), trimmedLine);
        output := output + [trimmedLine];
      }
      assert lines[..|lines|] == lines;
    }

    method FlushStreamBuffers()
      modifies this
      ensures buffer == "" && output == old(output) + Clean(old(buffer))
    {
      if Trim(buffer) != "" {
        output := output + [Trim(buffer)];
      }
      buffer := "";
    }
  }

  /** One chunk: complete lines go out, the open one stays. */
  function Feed(buffer: string, output: seq<string>, chunk: string): (string, seq<string>) {
    (Open(buffer + chunk), output + Keep(Closed(buffer + chunk)))
  }

  function FeedAll(chunks: seq<string>): (string, seq<string>) {
    if chunks == [] then ("", [])
    else
      var before := FeedAll(chunks[..|chunks| - 1]);
      Feed(before.0, before.1, chunks[|chunks| - 1])
  }

  lemma {:induction false} FeedAllState(chunks: seq<string>)
    ensures FeedAll(chunks) == (Open(Concat(chunks)), Keep(Closed(Concat(chunks))))
  {
    if chunks != [] {
      var text, chunk := Concat(chunks[..|chunks| - 1]), chunks[|chunks| - 1];
      FeedAllState(chunks[..|chunks| - 1]);
      MoreText(text, chunk);
      KeepAppend(Closed(text), Closed(Open(text) + chunk));
    }
  }

  /** However the decoded output is cut into chunks, the lines recorded, including the
      final flush, are the non-empty trimmed lines of the whole output in order. */
  lemma {:induction false} SupervisorLinesIgnoreChunking(chunks: seq<string>)
    ensures FeedAll(chunks).1 + Clean(FeedAll(chunks).0) == Lines(Concat(chunks))
  {
    FeedAllState(chunks);
    LinesAre(Concat(chunks));
  }

  // ---------- the SDK ----------

  /** Values up to the first line that does not parse, and whether there is one. */
  function ParseAll<V>(lines: seq<string>, parse: string -> Option<V>): (seq<V>, bool) {
    if lines == [] then ([], false)
    else
      var before := ParseAll(lines[..|lines| - 1], parse);
      var last := parse(lines[|lines| - 1]);
      if before.1 then before
      else if last.None? then (before.0, true)
      else (before.0 + [last.value], false)
  }

  lemma {:induction false} FailureIsFinal<V>(a: seq<string>, b: seq<string>, parse: string -> Option<V>)
    requires ParseAll(a, parse).1
    ensures ParseAll(a + b, parse) == ParseAll(a, parse)
  {
    if b == [] {
      assert a + b == a;
    } else {
      assert (a + b)[..|a + b| - 1] == a + b[..|b| - 1];
      FailureIsFinal(a, b[..|b| - 1], parse);
    }
  }

  method IndexOf(s: string, c: char) returns (k: int)
    ensures -1 <= k < |s|
    ensures if k == -1 then c !in s else s[k] == c && c !in s[..k]
  {
    for i := 0 to |s|
      invariant c !in s[..i]
    {
      if s[i] == c { return i; }
    }
    return -1;
  }

  /** The generator, run to its end: the values it yields, and whether it then throws. */
  method ParseNdjsonStream<V>(chunks: seq<string>, parse: string -> Option<V>) returns (values: seq<V>, failed: bool)
    ensures (values, failed) == ParseAll(Lines(Concat(chunks)), parse)
  {
    var buffer := "";
    values, failed := [], false;
    ghost var done: seq<string> := [];
    for i := 0 to |chunks|
      invariant done == Closed(Concat(chunks[..i])) && buffer == Open(Concat(chunks[..i])) && '\n' !in buffer
      invariant (values, false) == ParseAll(Keep(done), parse)
    {
      ghost var text := Concat(chunks[..i + 1]);
      ChunkArrives(chunks, i);
      buffer := buffer + chunks[i];
      while true
        invariant Closed(text) == done + Closed(buffer) && Open(text) == Open(buffer)
        invariant (values, false) == ParseAll(Keep(done), parse)
        decreases |buffer|
      {
        var newlineIndex := IndexOf(buffer, '\n');
        if newlineIndex == -1 { break; }
        var raw := buffer[..newlineIndex];
        var line := Trim(raw);
        TakeLine(text, done, buffer, newlineIndex);
        NextLine(values, done, raw, parse);
        buffer := buffer[newlineIndex + 1..];
        done := done + [raw];
        if line == "" { continue; }
        var value := parse(line);
        if value.None? {
          AllChunks(chunks, i + 1);
          LaterChunksDoNotMatter(text, Concat(chunks[i + 1..]), done, Closed(buffer), parse);
          return values, true;
        }
        values := values + [value.value];
      }
      NoLine(buffer);
      assert done + [] == done;
    }
    assert chunks[..|chunks|] == chunks;
    NextLine(values, done, buffer, parse);
    LinesEnd(Concat(chunks), done, buffer);
    var tail := Trim(buffer);
    if tail != "" {
      var value := parse(tail);
      if value.None? {
        return values, true;
      }
      values := values + [value.value];
    }
  }

  lemma ChunkArrives(chunks: seq<string>, i: nat)
    requires i < |chunks|
    ensures var text, buffer := Concat(chunks[..i + 1]), Open(Concat(chunks[..i])) + chunks[i];
            Closed(text) == Closed(Concat(chunks[..i])) + Closed(buffer) && Open(text) == Open(buffer)
  {
    assert chunks[..i + 1][..i] == chunks[..i];
    MoreText(Concat(chunks[..i]), chunks[i]);
  }

  lemma LinesEnd(text: string, done: seq<string>, buffer: string)
    requires done == Closed(text) && buffer == Open(text)
    ensures Lines(text) == Keep(done + [buffer])
  {
    assert Split(text, '\n') == done + [buffer];
  }

  /** The text's next complete line ends at the buffer's first newline. */
  lemma TakeLine(text: string, done: seq<string>, buffer: string, k: nat)
    requires Closed(text) == done + Closed(buffer) && Open(text) == Open(buffer)
    requires k < |buffer| && buffer[k] == '\n' && '\n' !in buffer[..k]
    ensures Closed(text) == done + [buffer[..k]] + Closed(buffer[k + 1..]) && Open(text) == Open(buffer[k + 1..])
  {
    assert buffer == buffer[..k] + "\n" + buffer[k + 1..];
    FirstLine(buffer[..k], buffer[k + 1..]);
  }

  /** What one more raw line adds to the values parsed so far. */
  lemma NextLine<V>(values: seq<V>, done: seq<string>, raw: string, parse: string -> Option<V>)
    requires ParseAll(Keep(done), parse) == (values, false)
    ensures Keep(done + [raw]) == Keep(done) + Clean(raw)
    ensures ParseAll(Keep(done + [raw]), parse)
         == if Trim(raw) == "" then (values, false)
            else if parse(Trim(raw)).None? then (values, true) else (values + [parse(Trim(raw)).value], false)
  {
    KeepSnoc(done, raw);
    assert Keep(done) + [] == Keep(done);
    ParseSnoc(Keep(done), Trim(raw), parse);
  }

  lemma ParseSnoc<V>(lines: seq<string>, line: string, parse: string -> Option<V>)
    ensures ParseAll(lines + [line], parse)
         == var before := ParseAll(lines, parse);
            if before.1 then before
            else if parse(line).None? then (before.0, true) else (before.0 + [parse(line).value], false)
  {
    assert (lines + [line])[..|lines|] == lines;
  }

  /** Text that was never read cannot change a run that has already failed. */
  lemma {:induction false} LaterChunksDoNotMatter<V>(
    text: string, more: string, done: seq<string>, rest: seq<string>, parse: string -> Option<V>)
    requires Closed(text) == done + rest && ParseAll(Keep(done), parse).1
    ensures ParseAll(Lines(text + more), parse) == ParseAll(Keep(done), parse)
  {
    MoreText(text, more);
    PrefixStays(done, rest, Closed(Open(text) + more));
    var lines := LinesContinue(text + more, done);
    FailureIsFinal(Keep(done), lines, parse);
  }

  lemma PrefixStays(done: seq<string>, rest: seq<string>, more: seq<string>)
    ensures done <= done + rest + more
  {
  }

  lemma AllChunks(chunks: seq<string>, n: nat)
    requires n <= |chunks|
    ensures Concat(chunks) == Concat(chunks[..n]) + Concat(chunks[n..])
  {
    assert chunks == chunks[..n] + chunks[n..];
    ConcatAppend(chunks[..n], chunks[n..]);
  }

  lemma LinesContinue(text: string, done: seq<string>) returns (rest: seq<string>)
    requires done <= Closed(text)
    ensures Lines(text) == Keep(done) + rest
  {
    var closed := Closed(text);
    assert closed == done + closed[|done|..];
    KeepAppend(done, closed[|done|..]);
    LinesAre(text);
    rest := Keep(closed[|done|..]) + Clean(Open(text));
  }

  // ---------- both together ----------

  function PrintLines<V>(values: seq<V>, show: V -> string): string {
    if values == [] then "" else PrintLines(values[..|values| - 1], show) + show(values[|values| - 1]) + "\n"
  }

  /** A one-line rendering of `v` that the parser inverts. */
  predicate Invertible<V(==)>(v: V, show: V -> string, parse: string -> Option<V>) {
    '\n' !in show(v) && Trim(show(v)) == show(v) != "" && parse(show(v)) == Some(v)
  }

  lemma OneMoreLine(text: string, line: string)
    requires Open(text) == "" && '\n' !in line
    ensures Open(text + (line + "\n")) == "" && Closed(text + (line + "\n")) == Closed(text) + [line]
  {
    MoreText(text, line + "\n");
    assert Open(text) + (line + "\n") == line + "\n" + "";
    FirstLine(line, "");
    NoLine("");
    assert [line] + [] == [line];
  }

  function Shown<V>(values: seq<V>, show: V -> string): seq<string> {
    if values == [] then [] else Shown(values[..|values| - 1], show) + [show(values[|values| - 1])]
  }

  lemma {:induction false} PrintedLines<V>(values: seq<V>, show: V -> string, parse: string -> Option<V>)
    requires forall v | v in values :: Invertible(v, show, parse)
    ensures Open(PrintLines(values, show)) == "" && Closed(PrintLines(values, show)) == Shown(values, show)
  {
    if values != [] {
      var v := values[|values| - 1];
      PrintedLines(values[..|values| - 1], show, parse);
      assert Invertible(v, show, parse);
      var text := PrintLines(values[..|values| - 1], show);
      assert PrintLines(values, show) == text + (show(v) + "\n");
      OneMoreLine(text, show(v));
    }
  }

  lemma {:induction false} ShownIsKept<V>(values: seq<V>, show: V -> string, parse: string -> Option<V>)
    requires forall v | v in values :: Invertible(v, show, parse)
    ensures Keep(Shown(values, show)) == Shown(values, show)
  {
    if values != [] {
      var v := values[|values| - 1];
      ShownIsKept(values[..|values| - 1], show, parse);
      assert Invertible(v, show, parse);
      KeepSnoc(Shown(values[..|values| - 1], show), show(v));
    }
  }

  lemma {:induction false} ShownParse<V>(values: seq<V>, show: V -> string, parse: string -> Option<V>)
    requires forall v | v in values :: Invertible(v, show, parse)
    ensures ParseAll(Shown(values, show), parse) == (values, false)
  {
    if values != [] {
      var front, v := values[..|values| - 1], values[|values| - 1];
      ShownParse(front, show, parse);
      assert Invertible(v, show, parse);
      ParseSnoc(Shown(front, show), show(v), parse);
      assert values == front + [v];
    }
  }

  lemma LinesOfPrinted<V>(values: seq<V>, show: V -> string, parse: string -> Option<V>)
    requires forall v | v in values :: Invertible(v, show, parse)
    ensures Open(PrintLines(values, show)) == ""
    ensures ParseAll(Keep(Closed(PrintLines(values, show))), parse) == (values, false)
  {
    PrintedLines(values, show, parse);
    ShownIsKept(values, show, parse);
    ShownParse(values, show, parse);
  }

  /** Any values printed one per line come back unchanged from any chunking of the printed text. */
  lemma {:induction false} PrintThenParse<V>(
    values: seq<V>, show: V -> string, parse: string -> Option<V>, chunks: seq<string>)
    requires (forall v | v in values :: Invertible(v, show, parse)) && Concat(chunks) == PrintLines(values, show)
    ensures ParseAll(Lines(Concat(chunks)), parse) == (values, false)
    ensures ParseAll(FeedAll(chunks).1 + Clean(FeedAll(chunks).0), parse) == (values, false)
  {
    LinesOfPrinted(values, show, parse);
    LinesAre(Concat(chunks));
    var kept := Keep(Closed(Concat(chunks)));
    assert kept + [] == kept;
    SupervisorLinesIgnoreChunking(chunks);
  }
}
