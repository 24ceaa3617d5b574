/**
 Whole turns through the gateway (yb-gateway/src/service.rs): an upstream's text, cut
 anywhere, decoded from its dialect, encoded in the client's and read by the client.
 */
module Translation {
  import opened Prelude
  import opened Search
  import opened Json
  import opened Ir
  import opened Aggregate
  import opened Sse
  import opened StreamDriver
  import opened EndOfAnswer
  import opened Surfaces
  import Anthropic
  import AnthropicRoundTrip
  import Gemini
  import GeminiRoundTrip

  // ---------------------------------------------------------------------
  // Events of a growing text
  // ---------------------------------------------------------------------

  /** Closed by its last event and no other. */
  predicate ClosesOnce(events: seq<StreamEvent>) {
    events != [] && events[|events| - 1].Done? && forall i :: 0 <= i < |events| - 1 ==> !events[i].Done?
  }

  lemma WholePrefix(part: seq<StreamEvent>, events: seq<StreamEvent>)
    requires part <= events && ClosesOnce(events)
    ensures HasDone(part) ==> part == events
    ensures !HasDone(part) ==> HasDone(events[|part|..])
  {
    if HasDone(part) {
      var i :| 0 <= i < |part| && part[i].Done?;
      assert part[i] == events[i];
    } else {
      var last := |events| - 1;
      assert forall i :: 0 <= i < |part| ==> part[i] in part && part[i] == events[i];
      assert last >= |part|;
      assert events[|part|..][last - |part|] == events[last];
    }
  }

  /** The events of the complete lines of a text. */
  function EventsIn<D>(decode: Decoder<D>, d: D, text: string): seq<StreamEvent> {
    DecodeLines(decode, d, Lines(text)).1
  }

  /** The events of all its lines. */
  function AllEvents<D>(decode: Decoder<D>, d: D, text: string): seq<StreamEvent> {
    DecodeLines(decode, d, AllLines(text)).1
  }

  lemma EventsGrow<D>(decode: Decoder<D>, d: D, a: string, b: string)
    ensures EventsIn(decode, d, a + b) == EventsIn(decode, d, a) + NewEvents(decode, d, a, b)
    ensures EventsIn(decode, d, a) <= AllEvents(decode, d, a + b)
  {
    hide Lines, Rest, DecodeLines;
    LinesAcrossCut(a, b);
    DecodeLinesConcat(decode, d, Lines(a), Lines(Rest(a) + b));
    if Rest(a + b) != "" {
      DecodeLinesConcat(decode, d, Lines(a + b), [Rest(a + b)]);
    }
  }

  lemma {:induction false} TextGrows(items: seq<Item>, i: nat) returns (more: string)
    requires i <= |items|
    ensures TextOf(items) == TextOf(items[..i]) + more
    decreases |items|
  {
    if i == |items| {
      assert items[..i] == items;
      more := "";
    } else {
      var n := |items| - 1;
      var before := TextGrows(items[..n], i);
      assert items[..n][..i] == items[..i];
      var last := if items[n].Chunk? then items[n].bytes else "";
      more := before + last;
      ConcatAssoc(TextOf(items[..i]), before, last);
    }
  }

  /** What any part of the items gives is the beginning of what all of them give. */
  lemma PartOfWhole<D>(decode: Decoder<D>, d: D, items: seq<Item>, i: nat)
    requires i <= |items|
    ensures EventsIn(decode, d, TextOf(items[..i])) <= AllEvents(decode, d, TextOf(items))
  {
    hide TextOf, EventsIn, AllEvents;
    var more := TextGrows(items, i);
    EventsGrow(decode, d, TextOf(items[..i]), more);
  }

  lemma PartOfPart<D>(decode: Decoder<D>, d: D, items: seq<Item>, i: nat, j: nat)
    requires i <= j <= |items|
    ensures EventsIn(decode, d, TextOf(items[..i])) <= EventsIn(decode, d, TextOf(items[..j]))
  {
    hide TextOf, EventsIn;
    var more := TextGrows(items[..j], i);
    assert items[..j][..i] == items[..i];
    EventsGrow(decode, d, TextOf(items[..i]), more);
  }

  // ---------------------------------------------------------------------
  // What a run over a whole answer sends
  // ---------------------------------------------------------------------

  predicate AllChunks(items: seq<Item>) {
    forall i :: 0 <= i < |items| ==> items[i].Chunk?
  }

  lemma EndedIsOver<D, E>(w: Wire<D, E>, d: D, e: E, chunks: seq<Item>)
    ensures IsOver(w, d, e, chunks + [Ended])
  {
    var items := chunks + [Ended];
    assert items[|chunks|] == Ended;
    assert Stops(w, d, e, items[..|chunks|], items[|chunks|]);
  }

  lemma ChunksText(chunks: seq<Item>)
    ensures TextOf(chunks + [Ended]) == TextOf(chunks)
  {
    assert (chunks + [Ended])[..|chunks|] == chunks;
    assert TextOf(chunks) + "" == TextOf(chunks);
  }

  /** How far the run reads, and the bytes it has sent by then. */
  lemma SentByStop<D, E>(w: Wire<D, E>, d: D, e: E, chunks: seq<Item>) returns (n: nat)
    requires AllChunks(chunks)
    ensures var items := chunks + [Ended];
            && 0 < n <= |items|
            && !IsOver(w, d, e, items[..n - 1]) && Stops(w, d, e, items[..n - 1], items[n - 1])
            && (if n == |items| then Run(w, d, e, items).1 == FinalOutput(w, d, e, TextOf(chunks))
                else Run(w, d, e, items).1 == OutputOf(w, d, e, TextOf(chunks[..n])))
  {
    hide IsOver, Stops, OutputOf, FinalOutput, TextOf, Run, Live;
    var items := chunks + [Ended];
    EndedIsOver(w, d, e, chunks);
    ReadsToAStop(w, d, e, items);
    RunTracks(w, d, e, items);
    n := Reads(w, d, e, items);
    if n == |items| {
      assert items[..n] == items;
      ChunksText(chunks);
    } else {
      assert items[..n] == chunks[..n];
      assert chunks[..n][n - 1] == chunks[n - 1];
    }
  }

  /** A run that stops at no chunk before the answer is closed sends all of it. */
  lemma SentWhole<D, E>(w: Wire<D, E>, d: D, e: E, chunks: seq<Item>)
    requires AllChunks(chunks) && (forall st :: w.owed(st) == "")
    requires ClosesOnce(AllEvents(w.decode, d, TextOf(chunks)))
    requires forall i :: 0 <= i < |chunks| && Stops(w, d, e, chunks[..i], chunks[i]) ==>
               HasDone(EventsIn(w.decode, d, TextOf(chunks[..i + 1])))
    ensures Run(w, d, e, chunks + [Ended]).1 == Encode(w, e, AllEvents(w.decode, d, TextOf(chunks))).1
  {
    hide IsOver, Stops, TextOf, Run, ClosesOnce, HasDone, DecodeLines, Lines, AllLines, Encode;
    var n := SentByStop(w, d, e, chunks);
    var items := chunks + [Ended];
    var all := AllEvents(w.decode, d, TextOf(chunks));
    if n == |items| {
      var (e1, bytes) := Encode(w, e, all);
      assert FinalEvents(w, d, TextOf(chunks)) == all;
      assert w.owed(e1) == "" && bytes + "" == bytes;
    } else {
      assert items[..n - 1] == chunks[..n - 1] && items[n - 1] == chunks[n - 1];
      PartOfWhole(w.decode, d, chunks, n);
      WholePrefix(EventsIn(w.decode, d, TextOf(chunks[..n])), all);
    }
  }

  // ---------------------------------------------------------------------
  // To an Anthropic client
  // ---------------------------------------------------------------------

  /** A chunk completes a line that quotes the marker while the answer is not closed. */
  ghost predicate Premature<D>(decode: Decoder<D>, d: D, chunks: seq<Item>, i: nat)
    requires i < |chunks| && chunks[i].Chunk?
  {
    && (exists e :: e in NewEvents(decode, d, TextOf(chunks[..i]), chunks[i].bytes) && Quotes(e))
    && !HasDone(EventsIn(decode, d, TextOf(chunks[..i + 1])))
  }

  lemma ThroughChunk<D>(decode: Decoder<D>, d: D, chunks: seq<Item>, i: nat)
    requires i < |chunks| && chunks[i].Chunk?
    ensures EventsIn(decode, d, TextOf(chunks[..i + 1])) ==
            EventsIn(decode, d, TextOf(chunks[..i])) + NewEvents(decode, d, TextOf(chunks[..i]), chunks[i].bytes)
  {
    hide EventsIn, NewEvents;
    assert chunks[..i + 1][..i] == chunks[..i];
    EventsGrow(decode, d, TextOf(chunks[..i]), chunks[i].bytes);
  }

  /** A chunk that stops the stream before the answer is closed does so prematurely. */
  lemma StopsOrCloses<D>(c: Codec, decode: Decoder<D>, d: D, chunks: seq<Item>, i: nat)
    requires Plain(c) && i < |chunks| && chunks[i].Chunk?
    ensures Stops(AnthropicClient(c, decode), d, Anthropic.FRESH_EMIT, chunks[..i], chunks[i]) ==>
            HasDone(EventsIn(decode, d, TextOf(chunks[..i + 1]))) || Premature(decode, d, chunks, i)
    ensures Premature(decode, d, chunks, i) ==>
            Stops(AnthropicClient(c, decode), d, Anthropic.FRESH_EMIT, chunks[..i], chunks[i])
  {
    hide Plain, EventsIn, NewEvents, TextOf, Quotes, CarriesEnd;
    AnthropicStopsIff(c, decode, d, TextOf(chunks[..i]), chunks[i].bytes);
    ThroughChunk(decode, d, chunks, i);
  }

  /** What has been sent by then: the beginning of the answer, without its closing. */
  lemma SentByPremature<D>(c: Codec, decode: Decoder<D>, d: D, chunks: seq<Item>, i: nat) returns (n: nat)
    requires Plain(c) && AllChunks(chunks) && i < |chunks| && Premature(decode, d, chunks, i)
    ensures n <= |chunks| && !HasDone(EventsIn(decode, d, TextOf(chunks[..n])))
    ensures Run(AnthropicClient(c, decode), d, Anthropic.FRESH_EMIT, chunks + [Ended]).1 ==
            Anthropic.Written(c, Anthropic.EncodedAll(Anthropic.FRESH_EMIT, EventsIn(decode, d, TextOf(chunks[..n]))).1)
  {
    hide IsOver, Stops, TextOf, Run, Plain, Premature, EventsIn, HasDone, OutputOf, FinalOutput;
    hide Anthropic.Written, Anthropic.EncodedAll;
    var w, e := AnthropicClient(c, decode), Anthropic.FRESH_EMIT;
    StopsOrCloses(c, decode, d, chunks, i);
    n := SentByStop(w, d, e, chunks);
    StopsByThen(w, d, e, chunks, i, n);
    NotClosedEarlier(decode, d, chunks, i, n);
    OutputIs(c, decode, d, TextOf(chunks[..n]));
  }

  /** An answer stopped prematurely is sent short of its closing. */
  lemma SentShort<D>(c: Codec, decode: Decoder<D>, d: D, chunks: seq<Item>, i: nat)
    requires Plain(c) && AllChunks(chunks) && i < |chunks| && Premature(decode, d, chunks, i)
    requires ClosesOnce(AllEvents(decode, d, TextOf(chunks)))
    ensures Run(AnthropicClient(c, decode), d, Anthropic.FRESH_EMIT, chunks + [Ended]).1 !=
            Anthropic.Written(c, Anthropic.EncodedAll(Anthropic.FRESH_EMIT, AllEvents(decode, d, TextOf(chunks))).1)
  {
    hide TextOf, Run, ClosesOnce, Plain, Premature, EventsIn, AllEvents, HasDone, AnthropicClient;
    hide Anthropic.Written, Anthropic.EncodedAll;
    var n := SentByPremature(c, decode, d, chunks, i);
    var all, part := AllEvents(decode, d, TextOf(chunks)), EventsIn(decode, d, TextOf(chunks[..n]));
    PartOfWhole(decode, d, chunks, n);
    WholePrefix(part, all);
    assert all == part + all[|part|..];
    RestIsWritten(c, part, all[|part|..]);
  }

  lemma NotClosedEarlier<D>(decode: Decoder<D>, d: D, chunks: seq<Item>, i: nat, n: nat)
    requires n <= i + 1 <= |chunks| && chunks[i].Chunk? && Premature(decode, d, chunks, i)
    ensures !HasDone(EventsIn(decode, d, TextOf(chunks[..n])))
  {
    hide EventsIn, NewEvents, TextOf, Quotes;
    PartOfPart(decode, d, chunks, n, i + 1);
  }

  lemma OutputIs<D>(c: Codec, decode: Decoder<D>, d: D, text: string)
    ensures OutputOf(AnthropicClient(c, decode), d, Anthropic.FRESH_EMIT, text) ==
            Anthropic.Written(c, Anthropic.EncodedAll(Anthropic.FRESH_EMIT, EventsIn(decode, d, text)).1)
  {
    hide Encode, DecodeLines, Lines, Anthropic.Written, Anthropic.EncodedAll;
    AnthropicBytes(c, decode, Anthropic.FRESH_EMIT, EventsIn(decode, d, text));
  }

  lemma StopsByThen<D, E>(w: Wire<D, E>, d: D, e: E, chunks: seq<Item>, i: nat, n: nat)
    requires i < |chunks| && Stops(w, d, e, chunks[..i], chunks[i])
    requires 0 < n <= |chunks| + 1 && !IsOver(w, d, e, (chunks + [Ended])[..n - 1])
    ensures n <= i + 1
  {
    hide Stops, IsOver;
    var items := chunks + [Ended];
    if i < n - 1 {
      assert items[..n - 1][..i] == chunks[..i] && items[..n - 1][i] == chunks[i];
      OverFrom(w, d, e, items[..n - 1], i);
    }
  }

  lemma OverFrom<D, E>(w: Wire<D, E>, d: D, e: E, items: seq<Item>, i: nat)
    requires i < |items| && Stops(w, d, e, items[..i], items[i])
    ensures IsOver(w, d, e, items)
  {
    hide Stops;
  }

  lemma RestIsWritten(c: Codec, part: seq<StreamEvent>, rest: seq<StreamEvent>)
    requires Plain(c) && HasDone(rest)
    ensures Anthropic.Written(c, Anthropic.EncodedAll(Anthropic.FRESH_EMIT, part + rest).1) !=
            Anthropic.Written(c, Anthropic.EncodedAll(Anthropic.FRESH_EMIT, part).1)
  {
    hide Plain, Anthropic.Written, Anthropic.EncodedAll, Contains;
    var w, st := AnthropicClient(c, NoDecoder()), Anthropic.FRESH_EMIT;
    AnthropicBytes(c, NoDecoder(), st, part);
    AnthropicBytes(c, NoDecoder(), st, part + rest);
    var st1 := Anthropic.EncodedAll(st, part).0;
    AnthropicBytes(c, NoDecoder(), st1, rest);
    EncodeConcat(w, st, part, rest);
    EndsIff(c, part, rest);
    NotMarker("");
  }

  function NoDecoder(): Decoder<()> {
    (d: (), line: string) => (d, [])
  }

  /**
   An Anthropic client is sent the whole answer if and only if no chunk completes a line
   that quotes the marker before the answer is closed.
   */
  lemma SentWholeIff<D>(c: Codec, decode: Decoder<D>, d: D, chunks: seq<Item>)
    requires Plain(c) && AllChunks(chunks)
    requires ClosesOnce(AllEvents(decode, d, TextOf(chunks)))
    ensures Run(AnthropicClient(c, decode), d, Anthropic.FRESH_EMIT, chunks + [Ended]).1 ==
            Anthropic.Written(c, Anthropic.EncodedAll(Anthropic.FRESH_EMIT, AllEvents(decode, d, TextOf(chunks))).1)
            <==> forall i :: 0 <= i < |chunks| ==> !Premature(decode, d, chunks, i)
  {
    hide Plain, Premature, TextOf, Run, ClosesOnce, AllEvents, Stops, HasDone, EventsIn;
    hide Anthropic.Written, Anthropic.EncodedAll;
    var w, e := AnthropicClient(c, decode), Anthropic.FRESH_EMIT;
    if i :| 0 <= i < |chunks| && Premature(decode, d, chunks, i) {
      SentShort(c, decode, d, chunks, i);
    } else {
      forall i | 0 <= i < |chunks| && Stops(w, d, e, chunks[..i], chunks[i])
        ensures HasDone(EventsIn(decode, d, TextOf(chunks[..i + 1])))
      {
        StopsOrCloses(c, decode, d, chunks, i);
      }
      SentWhole(w, d, e, chunks);
      AnthropicBytes(c, decode, e, AllEvents(decode, d, TextOf(chunks)));
    }
  }

  // ---------------------------------------------------------------------
  // To a Gemini client
  // ---------------------------------------------------------------------

  /** A Gemini client is sent the whole answer, however it was cut. */
  lemma GeminiSentWhole<D>(c: Codec, decode: Decoder<D>, d: D, chunks: seq<Item>)
    requires AllChunks(chunks) && ClosesOnce(AllEvents(decode, d, TextOf(chunks)))
    ensures Run(GeminiClient(c, decode), d, Gemini.FRESH_EMIT, chunks + [Ended]).1 ==
            Rendered(c, Gemini.EncodedAll(c, Gemini.FRESH_EMIT, AllEvents(decode, d, TextOf(chunks))).1)
  {
    hide TextOf, Run, ClosesOnce, AllEvents, EventsIn, NewEvents, CarriesEnd, Rendered, Gemini.EncodedAll;
    var w, e := GeminiClient(c, decode), Gemini.FRESH_EMIT;
    forall i | 0 <= i < |chunks| && Stops(w, d, e, chunks[..i], chunks[i])
      ensures HasDone(EventsIn(decode, d, TextOf(chunks[..i + 1])))
    {
      GeminiStopsIff(c, decode, d, TextOf(chunks[..i]), chunks[i].bytes);
      ThroughChunk(decode, d, chunks, i);
    }
    SentWhole(w, d, e, chunks);
    GeminiBytes(c, decode, e, AllEvents(decode, d, TextOf(chunks)));
  }

  // ---------------------------------------------------------------------
  // What each dialect's reader gets is a turn
  // ---------------------------------------------------------------------

  /** The opening events of a turn, or none yet, with no orphan. */
  predicate TurnSoFar(started: bool, told: seq<StreamEvent>) {
    && (started <==> told != [])
    && (told != [] ==> told[0].MessageStart?)
    && (forall i :: 1 <= i < |told| ==> IsBody(told[i]))
    && AnthropicRoundTrip.NoOrphans(told)
  }

  lemma NoOrphansSnoc(told: seq<StreamEvent>, e: StreamEvent)
    requires AnthropicRoundTrip.NoOrphans(told)
    requires e.ToolUseDelta? ==> told != [] && told[|told| - 1].ToolUseStart?
    ensures AnthropicRoundTrip.NoOrphans(told + [e])
  {
    assert (told + [e])[..|told|] == told;
    AnthropicRoundTrip.NoOrphansStep(told + [e]);
  }

  /** One more event that may follow. */
  lemma TurnGoesOn(started: bool, told: seq<StreamEvent>, e: StreamEvent)
    requires TurnSoFar(started, told)
    requires if told == [] then e.MessageStart? else IsBody(e)
    requires e.ToolUseDelta? ==> told[|told| - 1].ToolUseStart?
    ensures TurnSoFar(true, told + [e])
  {
    hide AnthropicRoundTrip.NoOrphans;
    NoOrphansSnoc(told, e);
  }

  lemma TurnOpens(d: Gemini.SseView, told: seq<StreamEvent>, model: string)
    requires TurnSoFar(d.started, told)
    ensures TurnSoFar(true, told + GeminiRoundTrip.Opening(d, model))
  {
    hide AnthropicRoundTrip.NoOrphans;
    if !d.started {
      TurnGoesOn(d.started, told, MessageStart(model));
    } else {
      assert told + [] == told;
    }
  }

  lemma TurnTakesPart(c: Codec, d: Gemini.SseView, told: seq<StreamEvent>, model: string, part: Value)
    requires TurnSoFar(d.started, told)
    requires Gemini.PartEvents(c, part) != []
    ensures var (d', events) := Gemini.DecodedValue(c, d, Gemini.PartChunk(model, part).data);
            TurnSoFar(d'.started, told + events)
  {
    hide TurnSoFar, Gemini.DecodedValue, Gemini.PartChunk;
    GeminiRoundTrip.ReadPartChunk(c, d, model, part);
    var opening, events := GeminiRoundTrip.Opening(d, model), Gemini.PartEvents(c, part);
    TurnOpens(d, told, model);
    var t := told + opening;
    ConcatAssoc(told, opening, events);
    SoFarStarted(t);
    TurnGoesOn(true, t, events[0]);
    if |events| == 2 {
      TurnGoesOn(true, t + [events[0]], events[1]);
      assert t + [events[0]] + [events[1]] == t + events;
    } else {
      assert t + [events[0]] == t + events;
    }
  }

  lemma SoFarStarted(t: seq<StreamEvent>)
    requires TurnSoFar(true, t)
    ensures t != []
  {
  }

  /** The reader of one flushed call. */
  lemma TurnTakesFlush(c: Codec, st: Gemini.Emit, d: Gemini.SseView, told: seq<StreamEvent>)
    requires TurnSoFar(d.started, told)
    ensures var (d', events) := DecodeFrames(Gemini.ValueDecoder(c), d, Gemini.Flushed(c, st).1);
            TurnSoFar(d'.started, told + events)
  {
    hide TurnSoFar, Gemini.DecodedValue, Gemini.PartChunk, Gemini.PartEvents;
    if st.pending == None {
      assert told + [] == told;
    } else {
      var (name, args) := st.pending.value;
      var part := Gemini.CallPart(name, ParseOrEmpty(c, args));
      GeminiRoundTrip.ReadCallPart(c, name, ParseOrEmpty(c, args));
      GeminiRoundTrip.OneFrame(c, d, Gemini.PartChunk(st.model, part));
      TurnTakesPart(c, d, told, st.model, part);
    }
  }

  lemma TurnTakesEvent(c: Codec, st: Gemini.Emit, d: Gemini.SseView, told: seq<StreamEvent>, e: StreamEvent)
    requires TurnSoFar(d.started, told) && !e.Done?
    ensures var (d', events) := DecodeFrames(Gemini.ValueDecoder(c), d, Gemini.Encoded(c, st, e).1);
            TurnSoFar(d'.started, told + events)
  {
    hide TurnSoFar, Gemini.DecodedValue, Gemini.PartChunk, Gemini.Flushed;
    assert told + [] == told;
    match e
    case TextDelta(text) =>
      GeminiRoundTrip.OneFrame(c, d, Gemini.PartChunk(st.model, Gemini.TextPart(text)));
      assert Gemini.PartEvents(c, Gemini.TextPart(text)) == [TextDelta(text)];
      TurnTakesPart(c, d, told, st.model, Gemini.TextPart(text));
    case ToolUseStart(_, _) => TurnTakesFlush(c, st, d, told);
    case _ =>
  }

  lemma {:induction false} GeminiTellsATurn(c: Codec, events: seq<StreamEvent>)
    requires forall i :: 0 <= i < |events| ==> !events[i].Done?
    ensures var (d, told) := DecodeFrames(Gemini.ValueDecoder(c), Gemini.FRESH_SSE, Gemini.EncodedAll(c, Gemini.FRESH_EMIT, events).1);
            TurnSoFar(d.started, told)
    decreases |events|
  {
    hide TurnSoFar, Gemini.Encoded, Gemini.EncodedAll, DecodeFrames;
    if events == [] {
      NothingTold(c);
    } else {
      var n := |events| - 1;
      GeminiTellsATurn(c, events[..n]);
      GeminiSnoc(c, Gemini.FRESH_EMIT, events);
      var (st, before) := Gemini.EncodedAll(c, Gemini.FRESH_EMIT, events[..n]);
      var (d, told) := DecodeFrames(Gemini.ValueDecoder(c), Gemini.FRESH_SSE, before);
      TurnTakesEvent(c, st, d, told, events[n]);
      DecodeFramesConcat(Gemini.ValueDecoder(c), Gemini.FRESH_SSE, before, Gemini.Encoded(c, st, events[n]).1);
    }
  }

  lemma NothingTold(c: Codec)
    ensures var (d, told) := DecodeFrames(Gemini.ValueDecoder(c), Gemini.FRESH_SSE, Gemini.EncodedAll(c, Gemini.FRESH_EMIT, []).1);
            TurnSoFar(d.started, told)
  {
  }

  /** What a Gemini reader is told of a turn is a turn, closed once, without orphans. */
  lemma GeminiReadsATurn(c: Codec, events: seq<StreamEvent>)
    requires Lawful(c) && IsTurn(events)
    ensures var told := GeminiRoundTrip.Decoding(c, GeminiRoundTrip.Encoding(c, events));
            IsTurn(told) && ClosesOnce(told) && AnthropicRoundTrip.NoOrphans(told)
  {
    hide TurnSoFar, Gemini.Encoded, Gemini.EncodedAll, DecodeFrames, Gemini.Flushed, Gemini.FinishChunk, Gemini.DecodedValue;
    hide Lawful, GeminiRoundTrip.Decoding, GeminiRoundTrip.Encoding, AnthropicRoundTrip.NoOrphans;
    var n := |events| - 1;
    var dec := Gemini.ValueDecoder(c);
    GeminiRoundTrip.DecodingOfEncoding(c, events);
    GeminiTellsATurn(c, events[..n]);
    GeminiSnoc(c, Gemini.FRESH_EMIT, events);
    var (st, before) := Gemini.EncodedAll(c, Gemini.FRESH_EMIT, events[..n]);
    var (d, told) := DecodeFrames(dec, Gemini.FRESH_SSE, before);
    var stop := events[n].stop;
    DecodeFramesConcat(dec, Gemini.FRESH_SSE, before, Gemini.Encoded(c, st, events[n]).1);
    GeminiRoundTrip.EncodedDone(c, st, stop);
    var last := Gemini.FinishChunk(st.model, stop, st.usage.GetOr(NO_USAGE));
    var flushed := Gemini.Flushed(c, st).1;
    TurnTakesFlush(c, st, d, told);
    DecodeFramesConcat(dec, d, flushed, [last]);
    var (d1, more) := DecodeFrames(dec, d, flushed);
    GeminiRoundTrip.OneFrame(c, d1, last);
    ConcatAssoc(told, more, Gemini.DecodedValue(c, d1, last.data).1);
    FinishCloses(c, d1, told + more, st.model, stop, st.usage.GetOr(NO_USAGE));
  }

  lemma FinishCloses(c: Codec, d: Gemini.SseView, told: seq<StreamEvent>, model: string, stop: StopReason, u: Usage)
    requires TurnSoFar(d.started, told)
    ensures var all := told + Gemini.DecodedValue(c, d, Gemini.FinishChunk(model, stop, u).data).1;
            IsTurn(all) && ClosesOnce(all) && AnthropicRoundTrip.NoOrphans(all)
  {
    hide Gemini.DecodedValue, Gemini.FinishChunk, AnthropicRoundTrip.NoOrphans, Gemini.StopOfFinish, Gemini.FinishText;
    GeminiRoundTrip.ReadFinishChunk(c, d, model, stop, u);
    var opening := GeminiRoundTrip.Opening(d, model);
    var usage, done := UsageDelta(Tokens(u.input, u.output)), Done(Gemini.StopOfFinish(Gemini.FinishText(stop), d.toolOpen));
    TurnOpens(d, told, model);
    var t := told + opening;
    TurnGoesOn(true, t, usage);
    ConcatAssoc(told, opening, [usage, done]);
    assert t + [usage, done] == (t + [usage]) + [done];
    NoOrphansSnoc(t + [usage], done);
  }

  /** Every event told of a turn's messages follows the opening, and only the last closes. */
  lemma {:induction false} AnthropicTellsATurn(model: string, body: seq<StreamEvent>)
    requires forall i :: 0 <= i < |body| ==> IsBody(body[i])
    ensures var told := AnthropicRoundTrip.ToldAll(None, Anthropic.EncodedAll(Anthropic.FRESH_EMIT, [MessageStart(model)] + body).1).1;
            told != [] && told[0].MessageStart? && forall i :: 1 <= i < |told| ==> IsBody(told[i])
    decreases |body|
  {
    hide Anthropic.Encoded, Anthropic.EncodedAll, AnthropicRoundTrip.ToldAll, AnthropicRoundTrip.LastKind, PushedAll;
    hide AnthropicRoundTrip.Adopted;
    var events := [MessageStart(model)] + body;
    if body == [] {
      assert events == [MessageStart(model)];
      AnthropicRoundTrip.TrackOpening(model);
    } else {
      var n := |body| - 1;
      var init, e := [MessageStart(model)] + body[..n], body[n];
      assert events == init + [e];
      AnthropicTellsATurn(model, body[..n]);
      AnthropicRoundTrip.TrackPrefix(model, body[..n]);
      var (st, before) := Anthropic.EncodedAll(Anthropic.FRESH_EMIT, init);
      AnthropicRoundTrip.ToldSnoc(init, e);
      AnthropicRoundTrip.ToldOfEvent(st, init, e);
    }
  }

  lemma AnthropicReadsATurn(c: Codec, events: seq<StreamEvent>)
    requires Lawful(c) && IsTurn(events)
    ensures var told := AnthropicRoundTrip.Decoding(c, AnthropicRoundTrip.Encoding(c, events));
            IsTurn(told) && ClosesOnce(told)
  {
    hide Anthropic.Encoded, Anthropic.EncodedAll, AnthropicRoundTrip.ToldAll, AnthropicRoundTrip.LastKind, PushedAll;
    hide AnthropicRoundTrip.Adopted, Lawful, AnthropicRoundTrip.Decoding, AnthropicRoundTrip.Encoding, Anthropic.Finished;
    var model, body, stop := TurnParts(events);
    var init := [MessageStart(model)] + body;
    AnthropicRoundTrip.DecodingOfEncoding(c, events);
    AnthropicTellsATurn(model, body);
    AnthropicRoundTrip.TrackPrefix(model, body);
    AnthropicRoundTrip.ToldSnoc(init, Done(stop));
    var (st, before) := Anthropic.EncodedAll(Anthropic.FRESH_EMIT, init);
    AnthropicRoundTrip.ToldOfFinished(st, stop);
    DoneIsFinished(st, stop);
  }

  lemma DoneIsFinished(st: Anthropic.Emit, stop: StopReason)
    ensures Anthropic.Encoded(st, Done(stop)) == Anthropic.Finished(st, stop)
  {
  }

  // ---------------------------------------------------------------------
  // Across the gateway
  // ---------------------------------------------------------------------

  /**
   Every turn of a Gemini upstream, cut anywhere and streamed to an Anthropic client: unless a
   chunk quotes the marker too early, what the client aggregates is the Anthropic view of
   the Gemini view of the turn.
   */
  lemma GeminiToAnthropic(c: Codec, events: seq<StreamEvent>, chunks: seq<Item>, id: string)
    requires Lawful(c) && Plain(c) && IsTurn(events)
    requires AllChunks(chunks) && TextOf(chunks) == GeminiRoundTrip.Encoding(c, events)
    requires forall i :: 0 <= i < |chunks| ==> !Premature(Gemini.LineDecoder(c), Gemini.FRESH_SSE, chunks, i)
    ensures var w := AnthropicClient(c, Gemini.LineDecoder(c));
            var sent := Run(w, Gemini.FRESH_SSE, Anthropic.FRESH_EMIT, chunks + [Ended]).1;
            Meaning(c, AnthropicRoundTrip.Decoding(c, sent), id) ==
            AnthropicRoundTrip.View(GeminiRoundTrip.View(Meaning(c, events, id)))
  {
    hide Lawful, Plain, Premature, TextOf, Run, IsTurn, ClosesOnce, Meaning, GeminiRoundTrip.View, AnthropicRoundTrip.View;
    hide GeminiRoundTrip.Encoding, AnthropicRoundTrip.NoOrphans, AnthropicRoundTrip.Decoding, Anthropic.Written, Anthropic.EncodedAll;
    var told := GeminiRoundTrip.Decoding(c, TextOf(chunks));
    GeminiReadsATurn(c, events);
    SentWholeIff(c, Gemini.LineDecoder(c), Gemini.FRESH_SSE, chunks);
    GeminiRoundTrip.GeminiKeepsMeaning(c, events, id);
    AnthropicRoundTrip.AnthropicKeepsMeaningIff(c, told, id);
  }

  /**
   Every turn of an Anthropic upstream, cut anywhere and streamed to a Gemini client: what
   the client aggregates is the Gemini view of the Anthropic view of the turn, with
   separated tool input given the nameless call the upstream's encoder opened for it.
   */
  lemma AnthropicToGemini(c: Codec, events: seq<StreamEvent>, chunks: seq<Item>, id: string)
    requires Lawful(c) && IsTurn(events)
    requires AllChunks(chunks) && TextOf(chunks) == AnthropicRoundTrip.Encoding(c, events)
    ensures var w := GeminiClient(c, Anthropic.LineDecoder(c));
            var sent := Run(w, None, Gemini.FRESH_EMIT, chunks + [Ended]).1;
            Meaning(c, GeminiRoundTrip.Decoding(c, sent), id) ==
            GeminiRoundTrip.View(AnthropicRoundTrip.View(Meaning(c, AnthropicRoundTrip.Adopted(events), id)))
  {
    hide Lawful, TextOf, Run, IsTurn, ClosesOnce, Meaning, GeminiRoundTrip.View, AnthropicRoundTrip.View;
    hide AnthropicRoundTrip.Encoding, GeminiRoundTrip.Decoding, Rendered, Gemini.EncodedAll, AnthropicRoundTrip.Adopted;
    var told := AnthropicRoundTrip.Decoding(c, TextOf(chunks));
    AnthropicReadsATurn(c, events);
    GeminiSentWhole(c, Anthropic.LineDecoder(c), None, chunks);
    AnthropicRoundTrip.AnthropicMeaning(c, events, id);
    GeminiRoundTrip.GeminiKeepsMeaning(c, told, id);
  }
}
