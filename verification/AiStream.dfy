/** The streaming endpoint (`src/http/aiStream.ts`) as the printer of the event
    streams that `SseParse` reads: what it writes for a provider's chunks, and
    that a reader gets exactly those chunks back. */
module AiStream {
  import opened Options
  import opened JsonReader
  import opened JsonText
  import opened SseParse

  // ----- frames

  function Frame(e: SseEvent): string
  {
    Header(e) + ("data: " + e.data) + "\n\n"
  }

  function Header(e: SseEvent): string
  {
    match e.event
    case None => ""
    case Some(name) => "event: " + name + "\n"
  }

  function Text(events: seq<SseEvent>): string
  {
    if events == [] then "" else Frame(events[0]) + Text(events[1..])
  }

  /** Data of one line, and a name without white space around it. */
  predicate Printable(e: SseEvent)
  {
    '\n' !in e.data && (e.event.Some? ==> '\n' !in e.event.value && Trimmed(e.event.value))
  }

  /** What a frame can carry: besides, data that does not start with white space
      and does not end in a carriage return. */
  predicate Carried(e: SseEvent)
  {
    Printable(e) && (e.data != "" ==> !Space(e.data[0]) && e.data[|e.data| - 1] != '\r')
  }

  /** A name line and a data line. */
  lemma TwoLines(a: string, b: string)
    requires IsEvent(a) && IsData(b)
    ensures DataLines([a, b]) == [TrimStart(b[5..])] && EventName([a, b]) == Some(TrimEnd(TrimStart(a[6..])))
  {
    hide IsEvent, IsData, TrimStart, TrimEnd;
    assert !IsData(a) && "event:" <= a && "data:" <= b by { EventLine(a); DataLine(b); }
    assert !IsEvent(b) by { DataLine(b); }
    var lines, one := [a, b], [a];
    assert lines[..1] == one && one[..0] == [];
    assert one[|one| - 1] == a && DataLines([]) == [];
    assert DataLines(one) == [];
    assert EventName(one) == Some(TrimEnd(TrimStart(one[0][6..])));
  }

  lemma EventLine(a: string)
    requires IsEvent(a)
    ensures !IsData(a) && "event:" <= a
  {
  }

  lemma DataLine(b: string)
    requires IsData(b)
    ensures !IsEvent(b) && "data:" <= b
  {
  }

  function Delivered(e: SseEvent): SseEvent
  {
    e.(data := TrimStart(e.data))
  }

  lemma NamedBlock(name: string, data: string)
    requires '\n' !in data && '\n' !in name && Trimmed(name)
    ensures EventOf("event: " + name + ("\n" + ("data: " + data))) == Some(SseEvent(Some(name), TrimStart(data)))
  {
    hide Lines, DataLines, EventName, TrimStart, TrimEnd, IsData, IsEvent, Trimmed;
    var head, line := "event: " + name, "data: " + data;
    ValueLine(data);
    NameLine(name);
    LinesOfTwo(head, line);
    LinesOfOne(line);
    assert [head] + [line] == [head, line];
    TwoLines(head, line);
  }

  /** How the block of a frame is parsed. */
  lemma BlockOfFrame(e: SseEvent)
    requires Printable(e)
    ensures EventOf(Header(e) + ("data: " + e.data)) == Some(Delivered(e))
  {
    hide EventOf, TrimStart;
    var line := "data: " + e.data;
    match e.event
    case None =>
      ValueLine(e.data);
      assert Header(e) + line == "data:" + (" " + e.data);
      DataBlock(" " + e.data);
      assert line[5..] == " " + e.data;
    case Some(name) =>
      assert Header(e) + line == "event: " + name + ("\n" + line);
      NamedBlock(name, e.data);
  }

  /** The first blank line of a frame is its end. */
  lemma SepOfFrame(e: SseEvent, z: string)
    requires Printable(e)
    ensures FindSep(Frame(e) + z) == Some(|Header(e) + ("data: " + e.data)|)
  {
    var block := Header(e) + ("data: " + e.data);
    var t := Frame(e) + z;
    var n := |block|;
    assert t == block + ("\n\n" + z);
    assert SepAt(t, n);
    forall j | 0 <= j < n
      ensures !SepAt(t, j)
    {
      if t[j] == '\n' {
        assert block[j] == '\n';
        assert e.event.Some? && j == |Header(e)| - 1;
        assert t[j + 1] == 'd';
      }
    }
    SepUnique(t, n);
  }

  lemma FirstFrame(e: SseEvent, z: string)
    requires Printable(e)
    ensures Events(Frame(e) + z) == [Delivered(e)] + Events(z)
  {
    hide EventOf, FindSep, Events;
    var block := Header(e) + ("data: " + e.data);
    SepOfFrame(e, z);
    BlockOfFrame(e);
    FirstBlock(Frame(e) + z, |block|);
    assert (Frame(e) + z)[..|block|] == block && (Frame(e) + z)[|block| + 2..] == z;
  }

  lemma CarriedIsDelivered(e: SseEvent)
    requires Carried(e)
    ensures Printable(e) && Delivered(e) == e
  {
  }

  lemma EmptyText()
    ensures Events("") == []
  {
  }

  /** Frames are read back one by one. */
  lemma {:induction false} TextIsReadBack(events: seq<SseEvent>)
    requires forall k :: 0 <= k < |events| ==> Carried(events[k])
    ensures Events(Text(events)) == events
  {
    hide Events, Frame, Carried;
    if events == [] {
      EmptyText();
    } else {
      var e, rest := events[0], events[1..];
      assert forall k :: 0 <= k < |rest| ==> rest[k] == events[k + 1];
      TextIsReadBack(rest);
      CarriedIsDelivered(e);
      FirstFrame(e, Text(rest));
      assert events == [e] + rest;
    }
  }

  lemma FrameHasNoCrLf(e: SseEvent)
    requires Carried(e)
    ensures CrLfFree(Frame(e)) && Frame(e)[|Frame(e)| - 1] == '\n'
  {
    FrontHasNoCrLf(e, e.data);
    assert Frame(e) == (Header(e) + ("data: " + e.data)) + "\n\n";
  }

  lemma CrLfFreeJoin(a: string, b: string)
    requires CrLfFree(a) && CrLfFree(b) && (a != "" ==> a[|a| - 1] == '\n')
    ensures CrLfFree(a + b)
  {
  }

  lemma {:induction false} TextHasNoCrLf(events: seq<SseEvent>)
    requires forall k :: 0 <= k < |events| ==> Carried(events[k])
    ensures CrLfFree(Text(events))
  {
    hide Frame, Carried, CrLfFree;
    if events == [] {
      EmptyIsCrLfFree();
    } else {
      var rest := events[1..];
      assert forall k :: 0 <= k < |rest| ==> rest[k] == events[k + 1];
      FrameHasNoCrLf(events[0]);
      TextHasNoCrLf(rest);
      CrLfFreeJoin(Frame(events[0]), Text(rest));
    }
  }

  lemma EmptyIsCrLfFree()
    ensures CrLfFree("")
  {
  }

  /** Frame round trip: printing events and reading the text in any pieces gives
      the events back. */
  lemma FramesRoundTrip(events: seq<SseEvent>, pieces: seq<string>)
    requires forall k :: 0 <= k < |events| ==> Carried(events[k])
    requires Flatten(pieces) == Text(events)
    ensures StreamEvents("", pieces) == events
  {
    hide *;
    TextHasNoCrLf(events);
    NormalizeFixes(Text(events));
    NoCrCrLf(Text(events));
    StreamingEqualsBatch(pieces);
    TextIsReadBack(events);
  }

  lemma NoCrCrLf(s: string)
    requires CrLfFree(s)
    ensures CrCrLfFree(s)
  {
  }

  function StripCr(s: string): string
  {
    if s != "" && s[|s| - 1] == '\r' then s[..|s| - 1] else s
  }

  /** Normalising a frame takes one carriage return off the end of its data. */
  lemma NormalizedFrame(e: SseEvent)
    requires Printable(e)
    ensures Normalize(Frame(e)) == Frame(e.(data := StripCr(e.data)))
  {
    hide Normalize;
    var d := e.data;
    if d != "" && d[|d| - 1] == '\r' {
      var front := Header(e) + ("data: " + StripCr(d));
      assert d == StripCr(d) + "\r";
      assert Frame(e) == front + ("\r\n" + "\n");
      FrontHasNoCrLf(e, StripCr(d));
      NormalizeFixes(front);
      NormalizeFixes("\n");
      TornLineEnd(front, "\n");
    } else {
      FrontHasNoCrLf(e, d);
      assert Frame(e) == (Header(e) + ("data: " + d)) + "\n\n";
      NormalizeFixes(Frame(e));
    }
  }

  lemma FrontHasNoCrLf(e: SseEvent, d: string)
    requires Printable(e) && '\n' !in d
    ensures var front := Header(e) + ("data: " + d);
            CrLfFree(front) && (d == "" || d[|d| - 1] != '\r' ==> CrLfFree(front + "\n\n"))
  {
    var f := Header(e) + ("data: " + d);
    forall i | 0 <= i && i + 1 < |f| && f[i + 1] == '\n'
      ensures f[i] != '\r'
    {
      assert i + 1 == |Header(e)| - 1;
      assert e.event.value != "" ==> f[i] == e.event.value[|e.event.value| - 1];
    }
    assert f[|f| - 1] == if d == "" then ' ' else d[|d| - 1];
  }

  /** For an event of one line with a proper name the condition is exact: it
      comes back as it was exactly if its data neither starts with white space nor
      ends in a carriage return. */
  lemma RoundTripIffCarried(e: SseEvent)
    requires Printable(e)
    ensures Events(Normalize(Frame(e))) == [e] <==> Carried(e)
  {
    hide Events, Normalize, Frame;
    var sent := e.(data := StripCr(e.data));
    NormalizedFrame(e);
    FirstFrame(sent, "");
    EmptyText();
    assert Frame(sent) + "" == Frame(sent);
    assert Events(Normalize(Frame(e))) == [Delivered(sent)];
  }

  // ----- the endpoint

  /** A chunk as the provider yields it; `done` ends the stream. */
  datatype Chunk = Chunk(json: PlainJson, done: bool)

  function DataEvent(c: Chunk): SseEvent
  {
    SseEvent(None, Print(c.json))
  }

  const DoneEvent := SseEvent(Some("done"), "{}")

  const ErrorEvent := SseEvent(Some("error"), Print(Obj([Member("error", Str("stream_failed"))])))

  /** How many chunks are written: those before the client closed the connection,
      up to and including one marked done. */
  function Written(chunks: seq<Chunk>, closedAt: nat): (n: nat)
    ensures n <= |chunks| && n <= closedAt
    ensures forall k :: 0 <= k < n - 1 ==> !chunks[k].done
    ensures n == |chunks| || n == closedAt || (n > 0 && chunks[n - 1].done)
  {
    if chunks == [] || closedAt == 0 then 0
    else if chunks[0].done then 1
    else
      var n := 1 + Written(chunks[1..], closedAt - 1);
      assert forall k :: 1 <= k < |chunks| ==> chunks[1..][k - 1] == chunks[k];
      n
  }

  function DataEvents(chunks: seq<Chunk>): seq<SseEvent>
  {
    if chunks == [] then [] else DataEvents(chunks[..|chunks| - 1]) + [DataEvent(chunks[|chunks| - 1])]
  }

  /** The loop ran out of chunks, rather than stopping at a done one or at a closed
      connection. */
  predicate Exhausted(chunks: seq<Chunk>, closedAt: nat)
  {
    var n := Written(chunks, closedAt);
    n == |chunks| && (n > 0 ==> !chunks[n - 1].done)
  }

  /** The events the endpoint writes. The provider throws after its last chunk if
      `throws`; the connection counts as closed from the `closedAt`-th look on. */
  function Sent(chunks: seq<Chunk>, throws: bool, closedAt: nat): seq<SseEvent>
  {
    var n := Written(chunks, closedAt);
    DataEvents(chunks[..n]) +
    if throws && Exhausted(chunks, closedAt) then [ErrorEvent]
    else if n < closedAt then [DoneEvent]
    else []
  }

  lemma {:induction false} TextJoin(a: seq<SseEvent>, b: seq<SseEvent>)
    ensures Text(a + b) == Text(a) + Text(b)
  {
    hide Frame;
    if a == [] {
      assert a + b == b;
    } else {
      assert (a + b)[1..] == a[1..] + b;
      TextJoin(a[1..], b);
      assert Frame(a[0]) + (Text(a[1..]) + Text(b)) == (Frame(a[0]) + Text(a[1..])) + Text(b);
    }
  }

  lemma TextOfOne(e: SseEvent)
    ensures Text([e]) == Frame(e)
  {
    assert Frame(e) + "" == Frame(e);
  }

  /** One more frame is one more event. */
  lemma OneMore(events: seq<SseEvent>, e: SseEvent)
    ensures Text(events + [e]) == Text(events) + Frame(e)
  {
    hide Frame;
    TextJoin(events, [e]);
    TextOfOne(e);
  }

  lemma DataEventsStep(chunks: seq<Chunk>, n: nat)
    requires n < |chunks|
    ensures DataEvents(chunks[..n + 1]) == DataEvents(chunks[..n]) + [DataEvent(chunks[n])]
  {
    assert chunks[..n + 1][..n] == chunks[..n];
  }

  /** Where the loop stops. */
  lemma {:induction false} StoppedHere(chunks: seq<Chunk>, closedAt: nat, n: nat)
    requires n <= |chunks| && n <= closedAt && forall k :: 0 <= k < n - 1 ==> !chunks[k].done
    requires n == |chunks| || n == closedAt || (n > 0 && chunks[n - 1].done)
    ensures Written(chunks, closedAt) == n
  {
    if n > 0 && !chunks[0].done {
      assert forall k :: 0 <= k < |chunks| - 1 ==> chunks[1..][k] == chunks[k + 1];
      StoppedHere(chunks[1..], closedAt - 1, n - 1);
    }
  }

  /** The handler's loop over the provider's chunks. `out` is what has been written
      to the response. */
  method ChatStream(chunks: seq<Chunk>, throws: bool, closedAt: nat) returns (out: string)
    ensures out == Text(Sent(chunks, throws, closedAt))
  {
    hide Frame, Text, DataEvents, DataEvent, Written, Print;
    ghost var events: seq<SseEvent> := [];
    out := "";
    NoText(chunks);
    var look := 0;
    var stopped := false;
    while look < |chunks| && !stopped
      invariant look <= |chunks| && look <= closedAt
      invariant forall k :: 0 <= k < look - 1 ==> !chunks[k].done
      invariant look > 0 && chunks[look - 1].done ==> stopped
      invariant stopped ==> (look < |chunks| && look == closedAt) || (look > 0 && chunks[look - 1].done)
      invariant events == DataEvents(chunks[..look]) && out == Text(events)
      decreases |chunks| - look, !stopped
    {
      if look >= closedAt {
        stopped := true;
      } else {
        DataEventsStep(chunks, look);
        OneMore(events, DataEvent(chunks[look]));
        events := events + [DataEvent(chunks[look])];
        out := out + Frame(DataEvent(chunks[look]));
        stopped := chunks[look].done;
        look := look + 1;
      }
    }
    StoppedHere(chunks, closedAt, look);
    if !stopped && throws {
      OneMore(events, ErrorEvent);
      out := out + Frame(ErrorEvent);
    } else if look < closedAt {
      OneMore(events, DoneEvent);
      out := out + Frame(DoneEvent);
    } else {
      assert events + [] == events;
    }
  }

  lemma NoText(chunks: seq<Chunk>)
    ensures DataEvents(chunks[..0]) == [] && Text([]) == ""
  {
  }

  // ----- what a client reads

  lemma PrintedIsCarried(v: PlainJson, event: Option<string>)
    requires event.None? || event == Some("done") || event == Some("error")
    ensures Carried(SseEvent(event, Print(v)))
  {
    hide Print, Plain;
    PrintOneLine(v);
    FirstChar(v);
  }

  lemma {:induction false} DataEventsAre(chunks: seq<Chunk>)
    ensures |DataEvents(chunks)| == |chunks|
    ensures forall k :: 0 <= k < |chunks| ==> DataEvents(chunks)[k] == DataEvent(chunks[k])
  {
    if chunks != [] { DataEventsAre(chunks[..|chunks| - 1]); }
  }

  lemma SentIsCarried(chunks: seq<Chunk>, throws: bool, closedAt: nat)
    ensures forall e :: e in Sent(chunks, throws, closedAt) ==> Carried(e)
  {
    hide Carried, Print, Written;
    var data := chunks[..Written(chunks, closedAt)];
    DataEventsAre(data);
    forall k | 0 <= k < |data|
      ensures Carried(DataEvents(data)[k])
    {
      PrintedIsCarried(data[k].json, None);
    }
    PrintedIsCarried(Obj([Member("error", Str("stream_failed"))]), Some("error"));
    PrintedIsCarried(Obj([]), Some("done"));
    EmptyObject();
  }

  lemma EmptyObject()
    ensures Print(Obj([])) == "{}"
  {
  }

  /** What a client reads, however the network cuts the response into pieces: the
      data events of the chunks up to the first one marked done, as many as were
      written before the connection closed, in order, each parsing to its chunk; then
      `error` if the provider threw, or `done` if the connection was still open. */
  lemma ClientReadsTheChunks(chunks: seq<Chunk>, throws: bool, closedAt: nat, pieces: seq<string>)
    requires Flatten(pieces) == Text(Sent(chunks, throws, closedAt))
    ensures var got, n := StreamEvents("", pieces), Written(chunks, closedAt);
            && n <= |got| <= n + 1
            && (forall k :: 0 <= k < n ==>
                  && got[k].event.None? && got[k].data == Print(chunks[k].json)
                  && Parse(got[k].data) == Some(chunks[k].json))
            && (|got| > n ==> if throws && Exhausted(chunks, closedAt)
                              then Carries(got[n], "error", Obj([Member("error", Str("stream_failed"))]))
                              else Carries(got[n], "done", Obj([])))
            && (|got| == n <==> n == closedAt && !(throws && Exhausted(chunks, closedAt)))
  {
    hide StreamEvents, Text, Print, Written, Carried, Flatten, Plain, Parse;
    var sent, n := Sent(chunks, throws, closedAt), Written(chunks, closedAt);
    SentIsCarried(chunks, throws, closedAt);
    FramesRoundTrip(sent, pieces);
    DataEventsAre(chunks[..n]);
    forall k | 0 <= k < n
      ensures sent[k] == DataEvent(chunks[k]) && Parse(sent[k].data) == Some(chunks[k].json)
    {
      ParsePrint(chunks[k].json);
    }
    ClosingEvents();
  }

  /** An event of this name whose data parses to this value. */
  predicate Carries(e: SseEvent, name: string, v: Json)
  {
    e.event == Some(name) && Parse(e.data) == Some(v)
  }

  lemma ClosingEvents()
    ensures Carries(ErrorEvent, "error", Obj([Member("error", Str("stream_failed"))]))
    ensures Carries(DoneEvent, "done", Obj([]))
  {
    hide Parse;
    EmptyObject();
    ParsePrint(Obj([Member("error", Str("stream_failed"))]));
    ParsePrint(Obj([]));
  }
}
