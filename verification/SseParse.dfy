/** The incremental event-stream parser (`src/ai/providers/sseParse.ts`), on
    characters. A read delivers any piece of the stream; the parser normalises
    line ends in its buffer and cuts off the blocks that a blank line ends. */
module SseParse {
  import opened Options

  datatype SseEvent = SseEvent(event: Option<string>, data: string)

  // ----- line ends and blocks

  /** `replace(/\r\n/g, '\n')` */
  function Normalize(s: string): (r: string)
    ensures |r| <= |s|
  {
    if |s| >= 2 && s[0] == '\r' && s[1] == '\n' then "\n" + Normalize(s[2..])
    else if s == "" then ""
    else [s[0]] + Normalize(s[1..])
  }

  predicate SepAt(s: string, i: int)
  {
    0 <= i && i + 1 < |s| && s[i] == '\n' && s[i + 1] == '\n'
  }

  /** `indexOf('\n\n')` */
  function FindSep(s: string): (r: Option<nat>)
    ensures r.Some? ==> SepAt(s, r.value) && forall j :: 0 <= j < r.value ==> !SepAt(s, j)
    ensures r.None? ==> forall j :: !SepAt(s, j)
  {
    if SepAt(s, 0) then Some(0)
    else if s == "" then None
    else
      var r := FindSep(s[1..]);
      assert forall j :: SepAt(s, j) && j > 0 ==> SepAt(s[1..], j - 1);
      if r.None? then None else Some(r.value + 1)
  }

  /** White space in the sense of `String.prototype.trim`. */
  predicate Space(c: char)
  {
    c in "\t\n\r \U{B}\U{C}\U{A0}\U{1680}\U{2028}\U{2029}\U{202F}\U{205F}\U{3000}\U{FEFF}" ||
    '\U{2000}' <= c <= '\U{200A}'
  }

  function TrimStart(s: string): (r: string)
    ensures |r| <= |s| && (r != "" ==> !Space(r[0]))
    ensures s == "" || !Space(s[0]) ==> r == s
  {
    if s == "" || !Space(s[0]) then s else TrimStart(s[1..])
  }

  function TrimEnd(s: string): (r: string)
    ensures |r| <= |s|
    ensures s == "" || !Space(s[|s| - 1]) ==> r == s
  {
    if s == "" || !Space(s[|s| - 1]) then s else TrimEnd(s[..|s| - 1])
  }

  /** `split('\n')` */
  function Lines(s: string): (r: seq<string>)
    ensures r != []
  {
    if s == "" then [""]
    else
      var rest := Lines(s[1..]);
      if s[0] == '\n' then [""] + rest else [[s[0]] + rest[0]] + rest[1..]
  }

  /** `join('\n')` */
  function Join(lines: seq<string>): string
  {
    if lines == [] then "" else if |lines| == 1 then lines[0] else lines[0] + "\n" + Join(lines[1..])
  }

  predicate IsData(line: string)
  {
    "data:" <= line
  }

  predicate IsEvent(line: string)
  {
    !IsData(line) && "event:" <= line
  }

  function DataLines(lines: seq<string>): seq<string>
  {
    if lines == [] then []
    else
      var n := |lines| - 1;
      if IsData(lines[n]) then DataLines(lines[..n]) + [TrimStart(lines[n][5..])] else DataLines(lines[..n])
  }

  /** The last `event:` line wins. */
  function EventName(lines: seq<string>): Option<string>
  {
    if lines == [] then None
    else
      var n := |lines| - 1;
      if IsEvent(lines[n]) then Some(TrimEnd(TrimStart(lines[n][6..]))) else EventName(lines[..n])
  }

  /** The event of a block; a block without data has none. */
  function EventOf(block: string): Option<SseEvent>
  {
    var data := DataLines(Lines(block));
    if data == [] then None else Some(SseEvent(EventName(Lines(block)), Join(data)))
  }

  function Listed<T>(o: Option<T>): seq<T>
  {
    match o
    case None => []
    case Some(x) => [x]
  }

  method ParseBlock(block: string) returns (r: Option<SseEvent>)
    ensures r == EventOf(block)
  {
    var event: Option<string> := None;
    var dataLines: seq<string> := [];
    var lines := Lines(block);
    for i := 0 to |lines|
      invariant dataLines == DataLines(lines[..i]) && event == EventName(lines[..i])
    {
      var line := lines[i];
      assert lines[..i + 1][..i] == lines[..i];
      if "data:" <= line {
        dataLines := dataLines + [TrimStart(line[5..])];
      } else if "event:" <= line {
        event := Some(TrimEnd(TrimStart(line[6..])));
      }
    }
    assert lines[..|lines|] == lines;
    if dataLines == [] { return None; }
    return Some(SseEvent(event, Join(dataLines)));
  }

  // ----- parsing a whole text at once

  function Events(text: string): seq<SseEvent>
  {
    match FindSep(text)
    case None => []
    case Some(i) => Listed(EventOf(text[..i])) + Events(text[i + 2..])
  }

  /** The blocks of a text with the blank lines that end them. */
  function Consumed(text: string): string
  {
    match FindSep(text)
    case None => ""
    case Some(i) => text[..i + 2] + Consumed(text[i + 2..])
  }

  /** What follows the last blank line. */
  function Leftover(text: string): (r: string)
    ensures FindSep(r).None?
  {
    match FindSep(text)
    case None => text
    case Some(i) => Leftover(text[i + 2..])
  }

  lemma {:induction false} ConsumedAndLeftover(text: string)
    ensures Consumed(text) + Leftover(text) == text
    ensures Consumed(text) == "" || Consumed(text)[|Consumed(text)| - 1] == '\n'
    decreases |text|
  {
    hide FindSep;
    match FindSep(text)
    case None =>
    case Some(i) =>
      var block, rest := text[..i + 2], text[i + 2..];
      ConsumedAndLeftover(rest);
      assert text == block + rest && block[|block| - 1] == '\n';
      assert (block + Consumed(rest)) + Leftover(rest) == block + (Consumed(rest) + Leftover(rest));
  }

  // ----- parsing a stream

  /** The events yielded from a buffer and the reads still to come. */
  function StreamEvents(buffer: string, pieces: seq<string>): seq<SseEvent>
    decreases |pieces|
  {
    if pieces == [] then []
    else
      var text := Normalize(buffer + pieces[0]);
      Events(text) + StreamEvents(Leftover(text), pieces[1..])
  }

  /** The text these events are cut from, with the final buffer. */
  function StreamText(buffer: string, pieces: seq<string>): string
    decreases |pieces|
  {
    if pieces == [] then buffer
    else
      var text := Normalize(buffer + pieces[0]);
      Consumed(text) + StreamText(Leftover(text), pieces[1..])
  }

  lemma NoBlock(text: string)
    requires FindSep(text).None?
    ensures Events(text) == [] && Consumed(text) == "" && Leftover(text) == text
  {
    hide FindSep, EventOf;
  }

  lemma FirstBlock(text: string, i: nat)
    requires FindSep(text) == Some(i)
    ensures Events(text) == Listed(EventOf(text[..i])) + Events(text[i + 2..])
    ensures Consumed(text) == text[..i + 2] + Consumed(text[i + 2..])
    ensures Leftover(text) == Leftover(text[i + 2..])
  {
    hide FindSep, EventOf, Listed;
  }

  lemma Regroup<T>(a: seq<T>, b: seq<T>, c: seq<T>)
    ensures a + (b + c) == (a + b) + c
  {
  }

  /** The inner loop: cuts the complete blocks off the buffer. */
  method TakeBlocks(text: string) returns (events: seq<SseEvent>, buffer: string)
    ensures events == Events(text) && buffer == Leftover(text)
  {
    hide Events, Leftover, Consumed, EventOf, FindSep;
    events, buffer := [], text;
    var sep := FindSep(buffer);
    while sep.Some?
      invariant sep == FindSep(buffer)
      invariant events + Events(buffer) == Events(text)
      invariant Leftover(buffer) == Leftover(text)
      decreases |buffer|
    {
      var block := buffer[..sep.value];
      ghost var taken := events;
      FirstBlock(buffer, sep.value);
      buffer := buffer[sep.value + 2..];
      var parsed := ParseBlock(block);
      if parsed.Some? { events := events + [parsed.value]; }
      assert events == taken + Listed(EventOf(block));
      Regroup(taken, Listed(EventOf(block)), Events(buffer));
      sep := FindSep(buffer);
    }
    NoBlock(buffer);
  }

  method IterateSse(pieces: seq<string>) returns (events: seq<SseEvent>)
    ensures events == StreamEvents("", pieces)
  {
    hide Normalize, Events, Leftover;
    var buffer := "";
    events := [];
    for k := 0 to |pieces|
      invariant events + StreamEvents(buffer, pieces[k..]) == StreamEvents("", pieces)
    {
      ghost var rest, taken, held := pieces[k + 1..], events, buffer;
      assert pieces[k..][0] == pieces[k] && pieces[k..][1..] == rest;
      var more: seq<SseEvent>;
      more, buffer := TakeBlocks(Normalize(buffer + pieces[k]));
      events := events + more;
      assert StreamEvents(held, pieces[k..]) == more + StreamEvents(buffer, rest);
      Regroup(taken, more, StreamEvents(buffer, rest));
    }
    assert pieces[|pieces|..] == [];
  }

  // ----- events are a function of the text

  /** A block is found and parsed the same whatever follows it. */
  lemma BlockThen(a: string, i: nat, z: string)
    requires FindSep(a) == Some(i)
    ensures Events(a[..i + 2] + z) == Listed(EventOf(a[..i])) + Events(z)
  {
    var t := a[..i + 2] + z;
    var r := FindSep(t);
    assert SepAt(t, i);
    assert r.Some?;
    if r.value < i { assert SepAt(a, r.value); }
    assert t[..i] == a[..i] && t[i + 2..] == z;
  }

  /** Complete blocks are parsed the same whatever follows them. */
  lemma {:induction false} ConsumedThen(a: string, z: string)
    ensures Events(Consumed(a) + z) == Events(a) + Events(z)
    decreases |a|
  {
    hide Events, Consumed, EventOf;
    match FindSep(a)
    case None =>
      NoBlock(a);
      assert "" + z == z;
    case Some(i) =>
      FirstBlock(a, i);
      var block, rest := a[..i + 2], a[i + 2..];
      ConsumedThen(rest, z);
      BlockThen(a, i, Consumed(rest) + z);
      assert (block + Consumed(rest)) + z == block + (Consumed(rest) + z);
  }

  lemma {:induction false} EventsFromText(buffer: string, pieces: seq<string>)
    requires FindSep(buffer).None?
    ensures StreamEvents(buffer, pieces) == Events(StreamText(buffer, pieces))
    decreases |pieces|
  {
    if pieces != [] {
      var text := Normalize(buffer + pieces[0]);
      EventsFromText(Leftover(text), pieces[1..]);
      ConsumedThen(text, StreamText(Leftover(text), pieces[1..]));
    }
  }

  /** An unterminated tail is never emitted. */
  lemma TailIsNotEmitted(text: string)
    ensures Events(text) == Events(Consumed(text)) && FindSep(Leftover(text)).None?
  {
    ConsumedThen(text, "");
    assert Consumed(text) + "" == Consumed(text);
    assert Events("") == [];
  }

  // ----- normalising piecewise

  predicate CrLfFree(s: string)
  {
    forall i :: 0 <= i && i + 1 < |s| && s[i] == '\r' ==> s[i + 1] != '\n'
  }

  /** No `\r\r\n`, the one sequence that normalises to a new `\r\n`. */
  predicate CrCrLfFree(s: string)
  {
    forall i :: 0 <= i && i + 2 < |s| && s[i] == '\r' && s[i + 1] == '\r' ==> s[i + 2] != '\n'
  }

  lemma {:induction false} NormalizeFixes(s: string)
    requires CrLfFree(s)
    ensures Normalize(s) == s
  {
    if s != "" {
      assert forall i :: 0 <= i < |s| - 1 ==> s[1..][i] == s[i + 1];
      NormalizeFixes(s[1..]);
    }
  }

  predicate StartsCrLf(s: string)
  {
    |s| >= 2 && s[0] == '\r' && s[1] == '\n'
  }

  lemma NormalizeStep(s: string)
    ensures s == "" ==> Normalize(s) == ""
    ensures StartsCrLf(s) ==> Normalize(s) == "\n" + Normalize(s[2..])
    ensures s != "" && !StartsCrLf(s) ==> Normalize(s) == [s[0]] + Normalize(s[1..])
  {
  }

  /** Cutting a text where no `\r\n` is torn apart. */
  lemma {:induction false} NormalizeCut(a: string, b: string)
    requires a != "" && b != "" && a[|a| - 1] == '\r' ==> b[0] != '\n'
    ensures Normalize(a + b) == Normalize(a) + Normalize(b)
  {
    hide Normalize;
    NormalizeStep(a);
    NormalizeStep(a + b);
    if a == "" {
      assert a + b == b;
    } else if StartsCrLf(a) {
      assert (a + b)[2..] == a[2..] + b;
      NormalizeCut(a[2..], b);
      assert ("\n" + Normalize(a[2..])) + Normalize(b) == "\n" + (Normalize(a[2..]) + Normalize(b));
    } else {
      assert (a + b)[1..] == a[1..] + b;
      NormalizeCut(a[1..], b);
      assert ([a[0]] + Normalize(a[1..])) + Normalize(b) == [a[0]] + (Normalize(a[1..]) + Normalize(b));
    }
  }

  lemma {:induction false} NormalizedLast(s: string)
    requires s != ""
    ensures Normalize(s) != "" && Normalize(s)[|Normalize(s)| - 1] == s[|s| - 1]
  {
    if |s| >= 2 && s[0] == '\r' && s[1] == '\n' {
      if |s| > 2 { NormalizedLast(s[2..]); }
    } else if |s| > 1 {
      NormalizedLast(s[1..]);
    }
  }

  lemma {:induction false} NormalizedIsCrLfFree(s: string)
    requires CrCrLfFree(s)
    ensures CrLfFree(Normalize(s))
    ensures s != "" ==> Normalize(s) != ""
    ensures s != "" ==> (Normalize(s)[0] == '\n' <==> s[0] == '\n' || (|s| >= 2 && s[0] == '\r' && s[1] == '\n'))
  {
    if |s| >= 2 && s[0] == '\r' && s[1] == '\n' {
      assert forall i :: 0 <= i < |s| - 2 ==> s[2..][i] == s[i + 2];
      NormalizedIsCrLfFree(s[2..]);
    } else if s != "" {
      assert forall i :: 0 <= i < |s| - 1 ==> s[1..][i] == s[i + 1];
      NormalizedIsCrLfFree(s[1..]);
    }
  }

  /** Normalising in two goes is normalising at once. */
  lemma NormalizeAgain(a: string, b: string)
    requires CrCrLfFree(a)
    ensures Normalize(Normalize(a) + b) == Normalize(a + b)
  {
    if a != "" && b != "" && a[|a| - 1] == '\r' && b[0] == '\n' {
      var front, rest := a[..|a| - 1], b[1..];
      assert a == front + "\r" && b == "\n" + rest;
      NormalizeAgainTorn(front, rest);
    } else {
      NormalizedIsCrLfFree(a);
      NormalizeFixes(Normalize(a));
      if a != "" { NormalizedLast(a); }
      NormalizeCut(a, b);
      NormalizeCut(Normalize(a), b);
    }
  }

  lemma NormalizeAgainTorn(a: string, b: string)
    requires CrCrLfFree(a)
    ensures Normalize(Normalize(a + "\r") + ("\n" + b)) == Normalize((a + "\r") + ("\n" + b))
  {
    hide Normalize;
    NormalizedIsCrLfFree(a);
    NormalizeFixes(Normalize(a));
    NormalizeFixes("\r");
    NormalizeCut(a, "\r");
    Rejoin(a, b);
    Rejoin(Normalize(a), b);
    TornLineEnd(a, b);
    TornLineEnd(Normalize(a), b);
  }

  lemma Rejoin(a: string, b: string)
    ensures (a + "\r") + ("\n" + b) == a + ("\r\n" + b)
  {
  }

  lemma TornLineEnd(a: string, b: string)
    ensures Normalize(a + ("\r\n" + b)) == Normalize(a) + ("\n" + Normalize(b))
  {
    NormalizeCut(a, "\r\n" + b);
    assert ("\r\n" + b)[2..] == b;
  }

  // ----- streaming equals batch

  function Flatten(pieces: seq<string>): string
  {
    if pieces == [] then "" else pieces[0] + Flatten(pieces[1..])
  }

  /** One more read: `done` is text that has been consumed, `buffer` what has not. */
  lemma ReadNormalized(raw: string, done: string, buffer: string, piece: string)
    requires CrCrLfFree(raw) && Normalize(raw) == done + buffer && (done == "" || done[|done| - 1] == '\n')
    ensures Normalize(raw + piece) == done + Normalize(buffer + piece)
  {
    hide Normalize;
    NormalizedIsCrLfFree(raw);
    PrefixCrLfFree(done, buffer);
    NormalizeFixes(done);
    NormalizeAgain(raw, piece);
    assert (done + buffer) + piece == done + (buffer + piece);
    NormalizeCut(done, buffer + piece);
  }

  lemma {:induction false} StreamTextIsNormalized(raw: string, done: string, buffer: string, pieces: seq<string>)
    requires CrCrLfFree(raw + Flatten(pieces))
    requires Normalize(raw) == done + buffer && (done == "" || done[|done| - 1] == '\n')
    ensures done + StreamText(buffer, pieces) == Normalize(raw + Flatten(pieces))
    decreases |pieces|
  {
    hide Normalize, Consumed, Leftover;
    if pieces == [] {
      assert raw + Flatten(pieces) == raw;
    } else {
      var piece, rest := pieces[0], pieces[1..];
      var text := Normalize(buffer + piece);
      var c, l := Consumed(text), Leftover(text);
      assert (raw + piece) + Flatten(rest) == raw + Flatten(pieces);
      PrefixCrCrLfFree(raw, Flatten(pieces));
      ReadNormalized(raw, done, buffer, piece);
      ConsumedAndLeftover(text);
      assert (done + c) + l == done + (c + l);
      StreamTextIsNormalized(raw + piece, done + c, l, rest);
      assert (done + c) + StreamText(l, rest) == done + (c + StreamText(l, rest));
    }
  }

  lemma PrefixCrCrLfFree(a: string, b: string)
    requires CrCrLfFree(a + b)
    ensures CrCrLfFree(a)
  {
    assert forall i :: 0 <= i < |a| ==> (a + b)[i] == a[i];
  }

  lemma PrefixCrLfFree(a: string, b: string)
    requires CrLfFree(a + b)
    ensures CrLfFree(a)
  {
    assert forall i :: 0 <= i < |a| ==> (a + b)[i] == a[i];
  }

  lemma StreamTextFromStart(pieces: seq<string>)
    requires CrCrLfFree(Flatten(pieces))
    ensures StreamText("", pieces) == Normalize(Flatten(pieces))
  {
    assert "" + Flatten(pieces) == Flatten(pieces);
    assert "" + StreamText("", pieces) == StreamText("", pieces);
    StreamTextIsNormalized("", "", "", pieces);
  }

  /** Streaming equals batch: however a stream without `\r\r\n` is cut into
      reads, the parser yields the events of the whole text. */
  lemma StreamingEqualsBatch(pieces: seq<string>)
    requires CrCrLfFree(Flatten(pieces))
    ensures StreamEvents("", pieces) == Events(Normalize(Flatten(pieces)))
  {
    EventsFromText("", pieces);
    StreamTextFromStart(pieces);
  }

  // ----- and the exception

  lemma {:induction false} LeftoverKeepsCrLf(text: string)
    requires |text| >= 2 && text[|text| - 2] == '\r' && text[|text| - 1] == '\n'
    ensures var l := Leftover(text); |l| >= 2 && l[|l| - 2] == '\r' && l[|l| - 1] == '\n'
    decreases |text|
  {
    match FindSep(text)
    case None =>
    case Some(i) =>
      assert i + 2 <= |text| - 2;
      LeftoverKeepsCrLf(text[i + 2..]);
  }

  lemma {:induction false} NormalizeShrinks(s: string)
    requires !CrLfFree(s)
    ensures |Normalize(s)| < |s|
  {
    var i :| 0 <= i && i + 1 < |s| && s[i] == '\r' && s[i + 1] == '\n';
    if i > 0 && !(s[0] == '\r' && s[1] == '\n') {
      assert s[1..][i - 1] == '\r' && s[1..][i] == '\n';
      NormalizeShrinks(s[1..]);
    }
  }

  predicate EndsCrLf(s: string)
  {
    |s| >= 2 && s[|s| - 2] == '\r' && s[|s| - 1] == '\n'
  }

  lemma NormalizedEndsCrLf(front: string)
    requires front != "" && front[|front| - 1] == '\r'
    ensures EndsCrLf(Normalize(front + "\r\n"))
  {
    TornLineEnd(front, "");
    assert "\r\n" + "" == "\r\n" && "\n" + Normalize("") == "\n";
    NormalizedLast(front);
  }

  /** A read that ends in `\r\r\n` is normalised once more with the next. */
  lemma NormalizedTwice(a: string, b: string)
    requires |a| >= 3 && a[|a| - 3] == '\r' && a[|a| - 2] == '\r' && a[|a| - 1] == '\n'
    ensures |StreamText("", [a, b])| < |Normalize(a + b)|
  {
    var text := Normalize(a);
    assert a == a[..|a| - 2] + "\r\n";
    NormalizedEndsCrLf(a[..|a| - 2]);
    LeftoverKeepsCrLf(text);
    var l := Leftover(text);
    assert l[|l| - 2] == '\r' && l[|l| - 1] == '\n' && !CrLfFree(l);
    NormalizeShrinks(l);
    ConsumedAndLeftover(text);
    NormalizeCut(a, b);
    NormalizeCut(l, b);
    TwoReads(a, b);
  }

  lemma TwoReads(a: string, b: string)
    ensures StreamText("", [a, b]) == Consumed(Normalize(a)) + Normalize(Leftover(Normalize(a)) + b)
  {
    assert "" + a == a && [a, b][1..] == [b] && [b][1..] == [];
    var l := Leftover(Normalize(a));
    ConsumedAndLeftover(Normalize(l + b));
    assert StreamText(l, [b]) == Normalize(l + b);
  }

  lemma FlattenTwo(a: string, b: string)
    ensures Flatten([a, b]) == a + b
  {
    assert [a, b][1..] == [b] && [b][1..] == [] && b + "" == b;
    assert Flatten([b]) == b;
  }

  /** Every cut of a stream is read as the whole stream exactly when the stream
      holds no `\r\r\n`. */
  lemma CutsAgreeIffCrCrLfFree(s: string)
    ensures (forall pieces :: Flatten(pieces) == s ==> StreamText("", pieces) == Normalize(s)) <==> CrCrLfFree(s)
  {
    if CrCrLfFree(s) {
      forall pieces | Flatten(pieces) == s
        ensures StreamText("", pieces) == Normalize(s)
      {
        StreamTextFromStart(pieces);
      }
    } else {
      var i :| 0 <= i && i + 2 < |s| && s[i] == '\r' && s[i + 1] == '\r' && s[i + 2] == '\n';
      var a, b := s[..i + 3], s[i + 3..];
      assert s == a + b;
      NormalizedTwice(a, b);
      FlattenTwo(a, b);
    }
  }

  // ----- one-line blocks

  lemma {:induction false} LinesOfOne(s: string)
    requires '\n' !in s
    ensures Lines(s) == [s]
  {
    if s != "" {
      assert s == [s[0]] + s[1..];
      LinesOfOne(s[1..]);
    }
  }

  lemma {:induction false} LinesOfTwo(a: string, s: string)
    requires '\n' !in a
    ensures Lines(a + ("\n" + s)) == [a] + Lines(s)
  {
    if a == "" {
      assert a + ("\n" + s) == "\n" + s && ("\n" + s)[1..] == s;
    } else {
      assert (a + ("\n" + s))[1..] == a[1..] + ("\n" + s);
      LinesOfTwo(a[1..], s);
      assert a == [a[0]] + a[1..];
    }
  }

  predicate Trimmed(s: string)
  {
    s != "" ==> !Space(s[0]) && !Space(s[|s| - 1])
  }

  lemma TrimStartOf(s: string)
    ensures TrimStart(" " + s) == TrimStart(s)
  {
    assert (" " + s)[1..] == s;
  }

  lemma NameLine(name: string)
    requires Trimmed(name)
    ensures IsEvent("event: " + name) && TrimEnd(TrimStart(("event: " + name)[6..])) == name
  {
    var head := "event: " + name;
    assert head[0] == 'e' && head[6..] == " " + name;
    TrimStartOf(name);
  }

  lemma ValueLine(data: string)
    ensures IsData("data: " + data) && TrimStart(("data: " + data)[5..]) == TrimStart(data)
  {
    assert ("data: " + data)[5..] == " " + data;
    TrimStartOf(data);
  }

  lemma SepUnique(t: string, n: nat)
    requires SepAt(t, n) && forall j :: 0 <= j < n ==> !SepAt(t, j)
    ensures FindSep(t) == Some(n)
  {
    var r := FindSep(t);
    assert r.Some?;
  }

  /** A block of one data line. */
  lemma DataBlock(data: string)
    requires '\n' !in data
    ensures EventOf("data:" + data) == Some(SseEvent(None, TrimStart(data)))
  {
    var line := "data:" + data;
    LinesOfOne(line);
    var lines := [line];
    assert line[5..] == data && lines[..0] == [];
    assert DataLines([line]) == [TrimStart(data)];
    assert EventName([line]).None?;
  }

  /** `data:a` with `\r\r\n` at its end, then a blank line's `\n`: the text the
      parser sees when it gets all at once. */
  lemma ReadAtOnce()
    ensures Normalize("data:a\r" + ("\r\n" + "\n")) == "data:a\r" + ("\n" + "\n")
  {
    hide Normalize;
    NormalizeFixes("data:a\r");
    NormalizeFixes("\n");
    TornLineEnd("data:a\r", "\n");
  }

  /** ... and when the read breaks before the last `\n`. */
  lemma ReadInTwo()
    ensures Normalize("data:a\r" + ("\r\n" + "")) == "data:a\r\n"
    ensures Normalize("data:a\r\n" + "\n") == "data:a" + ("\n" + "\n")
  {
    hide Normalize;
    NormalizeFixes("data:a\r");
    NormalizeFixes("");
    TornLineEnd("data:a\r", "");
    assert "data:a\r" + ("\n" + "") == "data:a\r\n";
    NormalizeFixes("data:a");
    NormalizeFixes("\n");
    TornLineEnd("data:a", "\n");
    assert "data:a\r\n" + "\n" == "data:a" + ("\r\n" + "\n");
  }

  /** The exception shows in the events, too: with `\r\r\n` in the stream, what is
      yielded depends on the cut. */
  lemma CutMatters()
    ensures StreamEvents("", ["data:a\r" + ("\r\n" + "\n")]) == [SseEvent(None, "a\r")]
    ensures StreamEvents("", ["data:a\r" + ("\r\n" + ""), "\n"]) == [SseEvent(None, "a")]
  {
    hide Normalize, Events, Leftover;
    ReadAtOnce();
    ReadInTwo();
    OneBlock("a\r");
    OneBlock("a");
    assert "data:" + "a\r" + "\n\n" == "data:a\r" + ("\n" + "\n");
    assert "data:" + "a" + "\n\n" == "data:a" + ("\n" + "\n");
    var first, last := "data:a\r" + ("\r\n" + ""), "data:a\r" + ("\r\n" + "\n");
    OneRead("", last);
    OneRead("data:a\r\n", "\n");
    NoBlock("data:a\r\n");
    assert "" + first == first && "" + last == last && [first, "\n"][1..] == ["\n"];
    assert StreamEvents("", [first, "\n"]) == Events("data:a\r\n") + StreamEvents(Leftover("data:a\r\n"), ["\n"]);
  }

  lemma OneRead(buffer: string, piece: string)
    ensures StreamEvents(buffer, [piece]) == Events(Normalize(buffer + piece))
  {
    assert [piece][1..] == [];
  }

  lemma OneBlock(data: string)
    requires '\n' !in data && data != "" && !Space(data[0])
    ensures Events("data:" + data + "\n\n") == [SseEvent(None, data)]
  {
    var t := "data:" + data + "\n\n";
    var r := FindSep(t);
    assert SepAt(t, |t| - 2) && r.Some?;
    assert t[r.value] == '\n';
    assert r.value == |t| - 2;
    DataBlock(data);
    assert t[..r.value] == "data:" + data && t[r.value + 2..] == "";
    assert Events("") == [];
  }

  // ----- `\r\r\n` at the end of a data line

  /** The text read so far ends in a blank line, if there is any. */
  predicate Complete(front: string)
  {
    Leftover(Normalize(front)) == ""
  }

  lemma {:induction false} NothingLeft(text: string)
    requires Leftover(text) == ""
    ensures Consumed(text) == text && (text == "" || text[|text| - 1] == '\n')
    decreases |text|
  {
    hide FindSep, Consumed, Leftover;
    match FindSep(text)
    case None =>
      NoBlock(text);
    case Some(i) =>
      FirstBlock(text, i);
      NothingLeft(text[i + 2..]);
      assert text == text[..i + 2] + text[i + 2..];
      assert text[i + 1] == '\n';
  }

  lemma CompleteText(front: string)
    requires Complete(front)
    ensures Leftover(Normalize(front)) == ""
  {
    hide Normalize, Leftover;
  }

  lemma LastOfNormalized(front: string)
    requires Normalize(front) == "" || Normalize(front)[|Normalize(front)| - 1] == '\n'
    ensures front == "" || front[|front| - 1] == '\n'
  {
    hide Normalize;
    if front != "" { NormalizedLast(front); }
  }

  lemma CompleteEnds(front: string)
    requires Complete(front)
    ensures Consumed(Normalize(front)) == Normalize(front) && (front == "" || front[|front| - 1] == '\n')
  {
    hide *;
    CompleteText(front);
    NothingLeft(Normalize(front));
    LastOfNormalized(front);
  }

  lemma {:induction false} TrimStartThenCr(d: string)
    ensures TrimStart(d + "\r") == if TrimStart(d) == "" then "" else TrimStart(d) + "\r"
  {
    if d == "" {
      assert TrimStart("\r") == TrimStart("\r"[1..]) == "";
      assert d + "\r" == "\r";
    } else {
      assert (d + "\r")[1..] == d[1..] + "\r";
      TrimStartThenCr(d[1..]);
    }
  }

  /** A data line and a blank line, then more text. */
  lemma DataThen(d: string, z: string)
    requires '\n' !in d
    ensures Events("data:" + d + "\n\n" + z) == [SseEvent(None, TrimStart(d))] + Events(z)
  {
    hide Events, EventOf, Lines;
    var block := "data:" + d;
    var t := block + "\n\n" + z;
    var r := FindSep(t);
    assert SepAt(t, |block|) && r.Some?;
    assert t[r.value] == '\n';
    assert r.value == |block|;
    FirstBlock(t, |block|);
    DataBlock(d);
    assert t[..|block|] == block && t[|block| + 2..] == z;
  }

  /** A line that no blank line ends. */
  lemma OpenLine(d: string)
    requires '\n' !in d
    ensures Events("data:" + d + "\n") == [] && Leftover("data:" + d + "\n") == "data:" + d + "\n"
  {
    var t := "data:" + d + "\n";
    forall j
      ensures !SepAt(t, j)
    {
      assert 0 <= j && j + 1 < |t| ==> t[j] != '\n';
    }
    NoBlock(t);
  }

  lemma LineIsCrLfFree(d: string)
    requires '\n' !in d
    ensures CrLfFree("data:" + d)
  {
  }

  /** Complete blocks in front do not change how the rest is normalised and read. */
  lemma AfterFront(front: string, rest: string)
    requires Complete(front)
    ensures Normalize(front + rest) == Normalize(front) + Normalize(rest)
    ensures Events(Normalize(front + rest)) == Events(Normalize(front)) + Events(Normalize(rest))
    ensures Leftover(Normalize(front + rest)) == Leftover(Normalize(rest))
  {
    hide Normalize, Events, Leftover, Consumed;
    CompleteEnds(front);
    NormalizeCut(front, rest);
    ConsumedThen(Normalize(front), Normalize(rest));
    LeftoverThen(Normalize(front), Normalize(rest));
  }

  lemma BlockThenLeftover(a: string, i: nat, z: string)
    requires FindSep(a) == Some(i)
    ensures Leftover(a[..i + 2] + z) == Leftover(z)
  {
    hide Leftover;
    var t := a[..i + 2] + z;
    assert SepAt(t, i);
    forall j | 0 <= j < i
      ensures !SepAt(t, j)
    {
      assert !SepAt(a, j);
    }
    assert FindSep(t).Some?;
    FirstBlock(t, i);
    assert t[i + 2..] == z;
  }

  lemma {:induction false} LeftoverThen(a: string, z: string)
    ensures Leftover(Consumed(a) + z) == Leftover(z)
    decreases |a|
  {
    hide Leftover, Consumed, FindSep;
    match FindSep(a)
    case None =>
      NoBlock(a);
      assert "" + z == z;
    case Some(i) =>
      FirstBlock(a, i);
      var block, rest := a[..i + 2], a[i + 2..];
      LeftoverThen(rest, z);
      BlockThenLeftover(a, i, Consumed(rest) + z);
      assert (block + Consumed(rest)) + z == block + (Consumed(rest) + z);
  }

  /** The stream, and the cut that tears it after the `\r\r\n`. */
  function TornStream(front: string, d: string, z: string): string
  {
    front + ("data:" + d + "\r" + ("\r\n" + ("\n" + z)))
  }

  function TornCut(front: string, d: string, z: string): seq<string>
  {
    [front + ("data:" + d + "\r" + ("\r\n" + "")), "\n" + z]
  }

  lemma NewlineFirst(z: string)
    ensures Normalize("\n" + z) == "\n" + Normalize(z)
  {
    hide Normalize;
    NormalizeFixes("\n");
    NormalizeCut("\n", z);
  }

  lemma WholeTornStream(front: string, d: string, z: string)
    requires Complete(front) && '\n' !in d
    ensures Events(Normalize(TornStream(front, d, z))) ==
            Events(Normalize(front)) + ([SseEvent(None, TrimStart(d + "\r"))] + Events(Normalize(z)))
  {
    hide Normalize, Events, TrimStart, Complete;
    var line := "data:" + d + "\r";
    AfterFront(front, line + ("\r\n" + ("\n" + z)));
    LineIsCrLfFree(d + "\r");
    assert line == "data:" + (d + "\r");
    NormalizeFixes(line);
    TornLineEnd(line, "\n" + z);
    NewlineFirst(z);
    assert line + ("\n" + ("\n" + Normalize(z))) == "data:" + (d + "\r") + "\n\n" + Normalize(z);
    DataThen(d + "\r", Normalize(z));
  }

  lemma FirstPieceOfTorn(front: string, d: string)
    requires Complete(front) && '\n' !in d
    ensures var text := Normalize(front + ("data:" + d + "\r" + ("\r\n" + "")));
            Events(text) == Events(Normalize(front)) && Leftover(text) == "data:" + d + "\r\n"
  {
    hide Normalize, Events, Leftover, Complete;
    var line := "data:" + d + "\r";
    AfterFront(front, line + ("\r\n" + ""));
    LineIsCrLfFree(d + "\r");
    assert line == "data:" + (d + "\r");
    NormalizeFixes(line);
    NormalizeFixes("");
    TornLineEnd(line, "");
    assert line + ("\n" + "") == "data:" + (d + "\r") + "\n" == "data:" + d + "\r\n";
    OpenLine(d + "\r");
    assert Events(Normalize(front)) + [] == Events(Normalize(front));
  }

  lemma LastPieceOfTorn(d: string, z: string)
    requires '\n' !in d
    ensures Events(Normalize("data:" + d + "\r\n" + ("\n" + z))) == [SseEvent(None, TrimStart(d))] + Events(Normalize(z))
  {
    hide Normalize, Events, TrimStart;
    assert "data:" + d + "\r\n" + ("\n" + z) == ("data:" + d) + ("\r\n" + ("\n" + z));
    LineIsCrLfFree(d);
    NormalizeFixes("data:" + d);
    TornLineEnd("data:" + d, "\n" + z);
    NewlineFirst(z);
    assert ("data:" + d) + ("\n" + ("\n" + Normalize(z))) == "data:" + d + "\n\n" + Normalize(z);
    DataThen(d, Normalize(z));
  }

  lemma TwoPieces(a: string, b: string)
    ensures StreamEvents("", [a, b]) == Events(Normalize(a)) + Events(Normalize(Leftover(Normalize(a)) + b))
  {
    hide Normalize, Events, Leftover;
    assert "" + a == a && [a, b][1..] == [b];
    OneRead(Leftover(Normalize(a)), b);
  }

  lemma TornInTwo(front: string, d: string, z: string)
    requires Complete(front) && '\n' !in d
    ensures Flatten(TornCut(front, d, z)) == TornStream(front, d, z)
    ensures StreamEvents("", TornCut(front, d, z)) ==
            Events(Normalize(front)) + ([SseEvent(None, TrimStart(d))] + Events(Normalize(z)))
  {
    hide Normalize, Events, Leftover, TrimStart, Complete;
    var a, b := TornCut(front, d, z)[0], TornCut(front, d, z)[1];
    FlattenTwo(a, b);
    TwoPieces(a, b);
    FirstPieceOfTorn(front, d);
    LastPieceOfTorn(d, z);
  }

  /** A data line with text in it, after complete blocks, that `\r\r\n` and a blank line
      end. Whatever follows is arbitrary. */
  ghost predicate TearsDataLine(s: string)
  {
    exists front, d, z :: Complete(front) && '\n' !in d && TrimStart(d) != "" && s == TornStream(front, d, z)
  }

  /** Every cut of the stream yields the events of the whole text. */
  ghost predicate CutsYieldTheSame(s: string)
  {
    forall pieces :: Flatten(pieces) == s ==> StreamEvents("", pieces) == Events(Normalize(s))
  }

  lemma TornHasCrCrLf(front: string, d: string, z: string)
    ensures !CrCrLfFree(TornStream(front, d, z))
  {
    var s, i := TornStream(front, d, z), |front| + 5 + |d|;
    assert s[i] == '\r' && s[i + 1] == '\r' && s[i + 2] == '\n';
  }

  lemma TornCutsDiffer(front: string, d: string, z: string)
    requires Complete(front) && '\n' !in d && TrimStart(d) != ""
    ensures !CutsYieldTheSame(TornStream(front, d, z))
  {
    hide Normalize, Events, TrimStart, Complete, StreamEvents, Flatten, TornStream, TornCut;
    WholeTornStream(front, d, z);
    TornInTwo(front, d, z);
    TrimStartThenCr(d);
    var n := |Events(Normalize(front))|;
    assert StreamEvents("", TornCut(front, d, z))[n] == SseEvent(None, TrimStart(d));
    assert Events(Normalize(TornStream(front, d, z)))[n] == SseEvent(None, TrimStart(d) + "\r");
  }

  /** The condition on the events: among the streams without `\r\r\n` and those in which
      it ends such a data line, all cuts yield the same events exactly for the former. */
  lemma EventsAgreeIffCrCrLfFree(s: string)
    requires CrCrLfFree(s) || TearsDataLine(s)
    ensures CutsYieldTheSame(s) <==> CrCrLfFree(s)
  {
    hide Normalize, Events, TrimStart, Complete, StreamEvents, Flatten, TornStream, CrCrLfFree;
    if CrCrLfFree(s) {
      forall pieces | Flatten(pieces) == s
        ensures StreamEvents("", pieces) == Events(Normalize(s))
      {
        StreamingEqualsBatch(pieces);
      }
    } else {
      var front, d, z :| Complete(front) && '\n' !in d && TrimStart(d) != "" && s == TornStream(front, d, z);
      TornCutsDiffer(front, d, z);
    }
  }
}
