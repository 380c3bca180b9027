/** Frames of several lines, as the event stream format allows them: what the parser
    of `SseParse` makes of data, event and other lines. */
module SseFields {
  import opened Options
  import opened SseParse

  /** A line of a block: `data: ..`, `event: ..`, or any other, such as a comment, an id
      or a retry line. */
  datatype Field = Data(value: string) | Name(value: string) | Other(line: string)

  function LineOf(f: Field): string
  {
    match f
    case Data(value) => "data: " + value
    case Name(value) => "event: " + value
    case Other(line) => line
  }

  predicate NoLineEnd(s: string)
  {
    '\n' !in s && '\r' !in s
  }

  /** The characters that `trim` removes: white space and line terminators of ECMAScript. */
  predicate White(c: char)
  {
    var n := c as int;
    n in {9, 10, 11, 12, 13, 32, 160, 5760, 8192, 8193, 8194, 8195, 8196, 8197, 8198, 8199, 8200, 8201, 8202,
          8232, 8233, 8239, 8287, 12288, 65279}
  }

  lemma SpaceIsWhite(c: char)
    ensures Space(c) <==> White(c)
  {
  }

  /** Values without line ends; data does not start with white space, names have none
      around them; other lines are not empty and of another kind. */
  predicate Proper(f: Field)
  {
    match f
    case Data(value) => NoLineEnd(value) && (value != "" ==> !White(value[0]))
    case Name(value) => NoLineEnd(value) && (value != "" ==> !White(value[0]) && !White(value[|value| - 1]))
    case Other(line) => NoLineEnd(line) && line != "" && !("data:" <= line) && !("event:" <= line)
  }

  /** The values of the data lines, in order. */
  function DataValues(fields: seq<Field>): seq<string>
  {
    if fields == [] then []
    else
      var last := fields[|fields| - 1];
      DataValues(fields[..|fields| - 1]) + if last.Data? then [last.value] else []
  }

  /** The value of the last event line. */
  function LastName(fields: seq<Field>): Option<string>
  {
    if fields == [] then None
    else
      var last := fields[|fields| - 1];
      if last.Name? then Some(last.value) else LastName(fields[..|fields| - 1])
  }

  /** Senders end their lines in either way. */
  predicate LineEnd(end: string)
  {
    end == "\n" || end == "\r\n"
  }

  /** One line each, and a blank line. */
  function BlockText(fields: seq<Field>, end: string): string
  {
    if fields == [] then end else LineOf(fields[0]) + end + BlockText(fields[1..], end)
  }

  function StreamOf(blocks: seq<seq<Field>>, end: string): string
  {
    if blocks == [] then "" else BlockText(blocks[0], end) + StreamOf(blocks[1..], end)
  }

  function FirstNewline(s: string): (n: nat)
    ensures n <= |s| && '\n' !in s[..n] && (n < |s| ==> s[n] == '\n')
  {
    if s == "" || s[0] == '\n' then 0
    else
      var n := 1 + FirstNewline(s[1..]);
      assert s[..n] == [s[0]] + s[1..][..n - 1];
      n
  }

  /** The lines of a text. */
  function SplitLines(s: string): seq<string>
    decreases |s|
  {
    var n := FirstNewline(s);
    if n == |s| then [s] else [s[..n]] + SplitLines(s[n + 1..])
  }

  /** What a reader is to see of a block. */
  predicate Shows(e: SseEvent, fields: seq<Field>)
  {
    SplitLines(e.data) == DataValues(fields) && e.event == LastName(fields)
  }

  /** One event for each block that has data, in order, and no other. */
  predicate ShowsAll(got: seq<SseEvent>, blocks: seq<seq<Field>>)
  {
    if blocks == [] then got == []
    else if DataValues(blocks[0]) == [] then ShowsAll(got, blocks[1..])
    else got != [] && Shows(got[0], blocks[0]) && ShowsAll(got[1..], blocks[1..])
  }

  // ----- one block

  lemma ProperLine(f: Field)
    requires Proper(f)
    ensures LineOf(f) != "" && NoLineEnd(LineOf(f))
    ensures IsData(LineOf(f)) <==> f.Data?
    ensures IsEvent(LineOf(f)) <==> f.Name?
    ensures f.Data? ==> TrimStart(LineOf(f)[5..]) == f.value
    ensures f.Name? ==> TrimEnd(TrimStart(LineOf(f)[6..])) == f.value
  {
    hide White, Space;
    match f
    case Data(value) =>
      if value != "" { SpaceIsWhite(value[0]); }
      ValueLine(value);
    case Name(value) =>
      if value != "" { SpaceIsWhite(value[0]); SpaceIsWhite(value[|value| - 1]); }
      NameLine(value);
    case Other(_) =>
  }

  function LinesOf(fields: seq<Field>): (r: seq<string>)
    ensures |r| == |fields|
  {
    if fields == [] then [] else LinesOf(fields[..|fields| - 1]) + [LineOf(fields[|fields| - 1])]
  }

  lemma {:induction false} LinesAt(fields: seq<Field>, i: nat)
    requires i < |fields|
    ensures LinesOf(fields)[i] == LineOf(fields[i])
  {
    if i < |fields| - 1 { LinesAt(fields[..|fields| - 1], i); }
  }

  predicate AllProper(fields: seq<Field>)
  {
    forall i :: 0 <= i < |fields| ==> Proper(fields[i])
  }

  lemma {:induction false} FieldsOfLines(fields: seq<Field>)
    requires AllProper(fields)
    ensures DataLines(LinesOf(fields)) == DataValues(fields) && EventName(LinesOf(fields)) == LastName(fields)
  {
    hide IsData, IsEvent, LineOf, Proper, TrimStart, TrimEnd;
    if fields != [] {
      var n := |fields| - 1;
      FieldsOfLines(fields[..n]);
      ProperLine(fields[n]);
      var lines := LinesOf(fields);
      assert lines[..n] == LinesOf(fields[..n]) && lines[n] == LineOf(fields[n]);
    }
  }

  /** The block of a frame, without the blank line. */
  function Body(fields: seq<Field>): string
    requires fields != []
  {
    if |fields| == 1 then LineOf(fields[0]) else LineOf(fields[0]) + ("\n" + Body(fields[1..]))
  }

  lemma {:induction false} BodyLines(fields: seq<Field>)
    requires fields != [] && AllProper(fields)
    ensures Lines(Body(fields)) == LinesOf(fields)
  {
    hide LineOf, Proper, Lines;
    ProperLine(fields[0]);
    if |fields| == 1 {
      LinesOfOne(LineOf(fields[0]));
      LinesAt(fields, 0);
      assert LinesOf(fields) == [LineOf(fields[0])];
    } else {
      BodyLines(fields[1..]);
      LinesOfTwo(LineOf(fields[0]), Body(fields[1..]));
      forall i | 0 <= i < |fields|
        ensures LinesOf(fields)[i] == ([LineOf(fields[0])] + LinesOf(fields[1..]))[i]
      {
        LinesAt(fields, i);
        if i > 0 { LinesAt(fields[1..], i - 1); }
      }
      assert LinesOf(fields) == [LineOf(fields[0])] + LinesOf(fields[1..]);
    }
  }

  lemma {:induction false} TextOfBody(fields: seq<Field>)
    requires fields != []
    ensures BlockText(fields, "\n") == Body(fields) + "\n\n"
  {
    if |fields| == 1 {
      assert BlockText(fields[1..], "\n") == "\n";
      assert LineOf(fields[0]) + "\n" + "\n" == LineOf(fields[0]) + "\n\n";
    } else {
      TextOfBody(fields[1..]);
      var line, rest := LineOf(fields[0]), Body(fields[1..]);
      assert line + "\n" + (rest + "\n\n") == (line + ("\n" + rest)) + "\n\n";
    }
  }

  lemma BodyStarts(fields: seq<Field>)
    requires fields != [] && AllProper(fields)
    ensures Body(fields) != "" && Body(fields)[0] != '\n'
  {
    hide LineOf, Proper;
    ProperLine(fields[0]);
    assert LineOf(fields[0])[0] in LineOf(fields[0]);
  }

  /** No blank line before the end of a block. */
  lemma {:induction false} NoSepBefore(fields: seq<Field>, z: string, j: nat)
    requires fields != [] && AllProper(fields) && j < |Body(fields)|
    ensures !SepAt(Body(fields) + ("\n\n" + z), j)
  {
    hide LineOf, Proper;
    var line := LineOf(fields[0]);
    ProperLine(fields[0]);
    var t := Body(fields) + ("\n\n" + z);
    assert forall k :: 0 <= k < |line| ==> t[k] == line[k] && line[k] in line;
    if |fields| > 1 {
      var rest := Body(fields[1..]);
      BodyStarts(fields[1..]);
      var u := rest + ("\n\n" + z);
      assert t == line + ("\n" + u);
      assert u[0] == rest[0];
      if j > |line| {
        NoSepBefore(fields[1..], z, j - |line| - 1);
        assert t[j] == u[j - |line| - 1] && (j + 1 < |t| ==> t[j + 1] == u[j - |line|]);
      }
    }
  }

  lemma NewlineAfter(a: string, b: string)
    requires '\n' !in a
    ensures FirstNewline(a + "\n" + b) == |a|
  {
    hide FirstNewline;
    var t := a + "\n" + b;
    var n := FirstNewline(t);
    assert t[|a|] == '\n';
    assert forall k :: 0 <= k < |a| ==> t[k] == a[k] && a[k] in a;
    forall k | 0 <= k < n
      ensures t[k] != '\n'
    {
      assert t[..n][k] == t[k];
    }
  }

  lemma NoNewline(a: string)
    requires '\n' !in a
    ensures SplitLines(a) == [a]
  {
    hide FirstNewline;
  }

  lemma SplitsFirst(a: string, b: string)
    requires '\n' !in a
    ensures SplitLines(a + "\n" + b) == [a] + SplitLines(b)
  {
    hide FirstNewline;
    NewlineAfter(a, b);
    var t := a + "\n" + b;
    assert t[..|a|] == a && t[|a| + 1..] == b;
  }

  lemma {:induction false} JoinIsSplit(values: seq<string>)
    requires values != [] && forall i :: 0 <= i < |values| ==> '\n' !in values[i]
    ensures SplitLines(Join(values)) == values
  {
    hide SplitLines;
    if |values| == 1 {
      NoNewline(values[0]);
      assert values == [values[0]];
    } else {
      JoinIsSplit(values[1..]);
      SplitsFirst(values[0], Join(values[1..]));
      assert values == [values[0]] + values[1..];
    }
  }

  lemma {:induction false} DataHasNoNewline(fields: seq<Field>)
    requires AllProper(fields)
    ensures forall i :: 0 <= i < |DataValues(fields)| ==> '\n' !in DataValues(fields)[i]
  {
    if fields != [] { DataHasNoNewline(fields[..|fields| - 1]); }
  }

  /** A block with data is one event that shows it; one without is none. */
  lemma BlockIsEvent(fields: seq<Field>, z: string)
    requires fields != [] && AllProper(fields)
    ensures DataValues(fields) == [] ==> Events(BlockText(fields, "\n") + z) == Events(z)
    ensures DataValues(fields) != [] ==>
              exists e :: Shows(e, fields) && Events(BlockText(fields, "\n") + z) == [e] + Events(z)
  {
    hide Events, FindSep, Lines, DataLines, EventName, Join, SplitLines, Proper, LinesOf, Body, BlockText, DataValues, LastName;
    var body := Body(fields);
    TextOfBody(fields);
    var t := body + ("\n\n" + z);
    assert BlockText(fields, "\n") + z == t;
    assert SepAt(t, |body|);
    forall j | 0 <= j < |body|
      ensures !SepAt(t, j)
    {
      NoSepBefore(fields, z, j);
    }
    SepUnique(t, |body|);
    FirstBlock(t, |body|);
    assert t[..|body|] == body && t[|body| + 2..] == z;
    BodyLines(fields);
    FieldsOfLines(fields);
    if DataValues(fields) == [] {
      assert [] + Events(z) == Events(z);
    } else {
      var e := SseEvent(LastName(fields), Join(DataValues(fields)));
      DataHasNoNewline(fields);
      JoinIsSplit(DataValues(fields));
      assert Shows(e, fields);
    }
  }

  // ----- streams of blocks

  lemma LineThen(line: string, end: string, z: string)
    requires NoLineEnd(line) && LineEnd(end) && CrCrLfFree(z)
    ensures CrCrLfFree(line + end + z)
    ensures Normalize(line + end + z) == line + "\n" + Normalize(z)
  {
    hide Normalize;
    var t := line + end + z;
    assert forall i :: 0 <= i < |line| ==> t[i] == line[i] && line[i] in line;
    assert forall i :: |line| + |end| <= i < |t| ==> t[i] == z[i - |line| - |end|];
    assert t[|line| + |end| - 1] == '\n';
    NormalizeFixes(line);
    if end == "\n" {
      NormalizeFixes(line + "\n");
      NormalizeCut(line + "\n", z);
    } else {
      TornLineEnd(line, z);
      assert t == line + ("\r\n" + z);
      assert line + ("\n" + Normalize(z)) == line + "\n" + Normalize(z);
    }
  }

  lemma {:induction false} BlockNormalizes(fields: seq<Field>, end: string, z: string)
    requires AllProper(fields) && LineEnd(end) && CrCrLfFree(z)
    ensures CrCrLfFree(BlockText(fields, end) + z)
    ensures Normalize(BlockText(fields, end) + z) == BlockText(fields, "\n") + Normalize(z)
  {
    hide LineOf, Proper, Normalize, CrCrLfFree;
    if fields == [] {
      LineThen("", end, z);
      assert "" + end + z == end + z && "" + "\n" + Normalize(z) == "\n" + Normalize(z);
    } else {
      var line, rest := LineOf(fields[0]), BlockText(fields[1..], end);
      ProperLine(fields[0]);
      BlockNormalizes(fields[1..], end, z);
      LineThen(line, end, rest + z);
      assert line + end + rest + z == line + end + (rest + z);
      assert line + "\n" + BlockText(fields[1..], "\n") + Normalize(z) == line + "\n" + (BlockText(fields[1..], "\n") + Normalize(z));
    }
  }

  lemma {:induction false} StreamNormalizes(blocks: seq<seq<Field>>, end: string)
    requires LineEnd(end) && forall k :: 0 <= k < |blocks| ==> AllProper(blocks[k])
    ensures CrCrLfFree(StreamOf(blocks, end))
    ensures Normalize(StreamOf(blocks, end)) == StreamOf(blocks, "\n")
  {
    hide BlockText, AllProper;
    if blocks != [] {
      StreamNormalizes(blocks[1..], end);
      BlockNormalizes(blocks[0], end, StreamOf(blocks[1..], end));
    }
  }

  lemma {:induction false} BlocksAreEvents(blocks: seq<seq<Field>>)
    requires forall k :: 0 <= k < |blocks| ==> blocks[k] != [] && AllProper(blocks[k])
    ensures ShowsAll(Events(StreamOf(blocks, "\n")), blocks)
  {
    hide BlockText, AllProper, Events, Shows, DataValues;
    if blocks == [] {
      NothingToRead();
    } else {
      var rest := StreamOf(blocks[1..], "\n");
      BlockIsEvent(blocks[0], rest);
      BlocksAreEvents(blocks[1..]);
      if DataValues(blocks[0]) != [] {
        var e :| Shows(e, blocks[0]) && Events(StreamOf(blocks, "\n")) == [e] + Events(rest);
        assert ([e] + Events(rest))[1..] == Events(rest);
      }
    }
  }

  lemma NothingToRead()
    ensures Events("") == []
  {
  }

  /** Frames of any lines, with either line end and cut into any pieces: each frame that
      has data lines is read as one event, whose data split into lines is the values of
      these and whose name is the last one given; the others yield nothing. */
  lemma FieldsRoundTrip(blocks: seq<seq<Field>>, end: string, pieces: seq<string>)
    requires forall k :: 0 <= k < |blocks| ==> blocks[k] != [] && AllProper(blocks[k])
    requires LineEnd(end) && Flatten(pieces) == StreamOf(blocks, end)
    ensures ShowsAll(StreamEvents("", pieces), blocks)
  {
    hide *;
    StreamNormalizes(blocks, end);
    StreamingEqualsBatch(pieces);
    BlocksAreEvents(blocks);
  }

  /** Other lines change nothing. */
  lemma {:induction false} OtherLinesDoNotMatter(fields: seq<Field>, i: nat)
    requires i < |fields| && fields[i].Other?
    ensures DataValues(fields[..i] + fields[i + 1..]) == DataValues(fields)
    ensures LastName(fields[..i] + fields[i + 1..]) == LastName(fields)
  {
    var n := |fields| - 1;
    var without := fields[..i] + fields[i + 1..];
    if i == n {
      assert without == fields[..n];
    } else {
      OtherLinesDoNotMatter(fields[..n], i);
      assert without[..n - 1] == fields[..n][..i] + fields[..n][i + 1..];
      assert without[n - 1] == fields[n];
    }
  }
}
