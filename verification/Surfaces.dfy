/**
 The two client surfaces as the stream driver runs them (yb-gateway/src/wire.rs and
 the end test of yb-gateway/src/service.rs), and when each takes bytes for the end.
 */
module Surfaces {
  import opened Search
  import opened Json
  import opened Ir
  import opened Aggregate
  import opened Sse
  import opened StreamDriver
  import opened EndOfAnswer
  import Anthropic
  import Gemini
  import GeminiRoundTrip

  // ---------------------------------------------------------------------
  // The surfaces
  // ---------------------------------------------------------------------

  function AnthropicEncode(c: Codec): (Anthropic.Emit, StreamEvent) -> (Anthropic.Emit, string) {
    (st: Anthropic.Emit, e: StreamEvent) =>
      (Anthropic.Encoded(st, e).0, Anthropic.Written(c, Anthropic.Encoded(st, e).1))
  }

  function GeminiEncode(c: Codec): (Gemini.Emit, StreamEvent) -> (Gemini.Emit, string) {
    (st: Gemini.Emit, e: StreamEvent) =>
      (Gemini.Encoded(c, st, e).0, Rendered(c, Gemini.Encoded(c, st, e).1))
  }

  function OwesNothing<E>(): E -> string {
    (e: E) => ""
  }

  function EndsByMarker(): (string, seq<StreamEvent>) -> bool {
    (bytes: string, events: seq<StreamEvent>) => AnthropicEnds(bytes)
  }

  function EndsByEvent(): (string, seq<StreamEvent>) -> bool {
    (bytes: string, events: seq<StreamEvent>) => HasDone(events)
  }

  function AnthropicClient<D>(c: Codec, decode: Decoder<D>): Wire<D, Anthropic.Emit> {
    Wire(decode, AnthropicEncode(c), OwesNothing(), EndsByMarker())
  }

  function GeminiClient<D>(c: Codec, decode: Decoder<D>): Wire<D, Gemini.Emit> {
    Wire(decode, GeminiEncode(c), OwesNothing(), EndsByEvent())
  }

  /** What the driver sends an Anthropic client is what its encoder writes. */
  lemma {:induction false} AnthropicBytes<D>(c: Codec, decode: Decoder<D>, st: Anthropic.Emit, events: seq<StreamEvent>)
    ensures Encode(AnthropicClient(c, decode), st, events) ==
            (Anthropic.EncodedAll(st, events).0, Anthropic.Written(c, Anthropic.EncodedAll(st, events).1))
    decreases |events|
  {
    hide Anthropic.Encoded, Anthropic.Written;
    if events == [] {
      NothingWritten(c);
    } else {
      var n := |events| - 1;
      AnthropicBytes(c, decode, st, events[..n]);
      var (st1, before) := Anthropic.EncodedAll(st, events[..n]);
      Anthropic.WrittenConcat(c, before, Anthropic.Encoded(st1, events[n]).1);
    }
  }

  lemma NothingWritten(c: Codec)
    ensures Anthropic.Written(c, []) == ""
  {
  }

  lemma {:induction false} GeminiBytes<D>(c: Codec, decode: Decoder<D>, st: Gemini.Emit, events: seq<StreamEvent>)
    ensures Encode(GeminiClient(c, decode), st, events) ==
            (Gemini.EncodedAll(c, st, events).0, Rendered(c, Gemini.EncodedAll(c, st, events).1))
    decreases |events|
  {
    hide Gemini.Encoded;
    if events != [] {
      var n := |events| - 1;
      GeminiBytes(c, decode, st, events[..n]);
      var (st1, before) := Gemini.EncodedAll(c, st, events[..n]);
      RenderedConcat(c, before, Gemini.Encoded(c, st1, events[n]).1);
    }
  }

  // ---------------------------------------------------------------------
  // When bytes are taken for the end
  // ---------------------------------------------------------------------

  /** The events of the lines that `more`, arriving after `text`, completes. */
  function NewEvents<D>(decode: Decoder<D>, d: D, text: string, more: string): seq<StreamEvent> {
    DecodeLines(decode, DecodeLines(decode, d, Lines(text)).0, Lines(Rest(text) + more)).1
  }

  /** A chunk stops an Anthropic client's stream if and only if a line it completes closes
      the answer or quotes the marker. */
  lemma AnthropicStopsIff<D>(c: Codec, decode: Decoder<D>, d: D, text: string, more: string)
    requires Plain(c)
    ensures CarriesEnd(AnthropicClient(c, decode), d, Anthropic.FRESH_EMIT, text, more)
            <==> SomeEnds(NewEvents(decode, d, text, more))
  {
    hide DecodeLines, Lines, Rest, Encode, SomeEnds, Contains, Anthropic.EncodedAll, Plain;
    var w := AnthropicClient(c, decode);
    var (d1, before) := DecodeLines(decode, d, Lines(text));
    var newer := NewEvents(decode, d, text, more);
    AnthropicBytes(c, decode, Anthropic.FRESH_EMIT, before);
    var st := Anthropic.EncodedAll(Anthropic.FRESH_EMIT, before).0;
    AnthropicBytes(c, decode, st, newer);
    EndsIff(c, before, newer);
    NotMarker("");
  }

  lemma {:induction false} DoneIsWritten(c: Codec, st: Gemini.Emit, events: seq<StreamEvent>)
    requires HasDone(events)
    ensures Rendered(c, Gemini.EncodedAll(c, st, events).1) != ""
    decreases |events|
  {
    hide Gemini.Encoded, Gemini.EncodedAll;
    var n := |events| - 1;
    assert forall e :: e in events <==> e in events[..n] || e == events[n];
    GeminiSnoc(c, st, events);
    var (st1, before) := Gemini.EncodedAll(c, st, events[..n]);
    RenderedConcat(c, before, Gemini.Encoded(c, st1, events[n]).1);
    if events[n].Done? {
      FinishIsWritten(c, st1, events[n].stop);
    } else {
      DoneIsWritten(c, st, events[..n]);
    }
  }

  lemma GeminiSnoc(c: Codec, st: Gemini.Emit, events: seq<StreamEvent>)
    requires events != []
    ensures var n := |events| - 1;
            var (st1, before) := Gemini.EncodedAll(c, st, events[..n]);
            Gemini.EncodedAll(c, st, events) ==
            (Gemini.Encoded(c, st1, events[n]).0, before + Gemini.Encoded(c, st1, events[n]).1)
  {
  }

  lemma FinishIsWritten(c: Codec, st: Gemini.Emit, stop: StopReason)
    ensures Rendered(c, Gemini.Encoded(c, st, Done(stop)).1) != ""
  {
    hide Gemini.FinishChunk, Gemini.PartChunk;
    assert Gemini.Encoded(c, st, Done(stop)).1 != [];
  }

  /** A chunk stops a Gemini client's stream if and only if a line it completes closes the answer. */
  lemma GeminiStopsIff<D>(c: Codec, decode: Decoder<D>, d: D, text: string, more: string)
    ensures CarriesEnd(GeminiClient(c, decode), d, Gemini.FRESH_EMIT, text, more)
            <==> HasDone(NewEvents(decode, d, text, more))
  {
    hide DecodeLines, Lines, Rest, Encode, HasDone, Gemini.EncodedAll, Rendered;
    var (d1, before) := DecodeLines(decode, d, Lines(text));
    var newer := NewEvents(decode, d, text, more);
    GeminiBytes(c, decode, Gemini.FRESH_EMIT, before);
    var st := Gemini.EncodedAll(c, Gemini.FRESH_EMIT, before).0;
    GeminiBytes(c, decode, st, newer);
    if HasDone(newer) {
      DoneIsWritten(c, st, newer);
    }
  }

  // ---------------------------------------------------------------------
  // An answer cut short
  // ---------------------------------------------------------------------

  /**
   A chunk that completes a line quoting the marker ends an Anthropic client's stream:
   the turn is recorded as complete, and nothing that comes after it is read or sent.
   */
  lemma QuotingChunkEndsTheRun<D>(c: Codec, decode: Decoder<D>, d: D, before: seq<Item>, bytes: string, after: seq<Item>)
    requires Plain(c)
    requires !IsOver(AnthropicClient(c, decode), d, Anthropic.FRESH_EMIT, before)
    requires exists e :: e in NewEvents(decode, d, TextOf(before), bytes) && Quotes(e)
    ensures var w, e := AnthropicClient(c, decode), Anthropic.FRESH_EMIT;
            var items := before + [Chunk(bytes)] + after;
            && IsOver(w, d, e, before + [Chunk(bytes)]) && IsOver(w, d, e, items)
            && Reads(w, d, e, items) == |before| + 1
            && Run(w, d, e, items).0.records == [Verdict(w, d, e, items)]
            && Verdict(w, d, e, items).outcome == Complete
            && Run(w, d, e, items).1 == OutputOf(w, d, e, TextOf(before) + bytes)
  {
    hide IsOver, Quotes, NewEvents, OutputOf, CarriesEnd, Run, Reads, Verdict, AnthropicClient, TextOf, Plain;
    AnthropicStopsIff(c, decode, d, TextOf(before), bytes);
    StoppedByChunk(AnthropicClient(c, decode), d, Anthropic.FRESH_EMIT, before, bytes, after);
  }

  /** The first chunk of a Gemini upstream: a text. */
  function TextChunk(c: Codec, model: string, text: string): string {
    Rendered(c, [Gemini.PartChunk(model, Gemini.TextPart(text))])
  }

  lemma TextChunkReads(c: Codec, model: string, text: string)
    requires Lawful(c)
    ensures DecodeLines(Gemini.LineDecoder(c), Gemini.FRESH_SSE, Lines(TextChunk(c, model, text))).1 ==
            [MessageStart(model), TextDelta(text)]
  {
    hide Gemini.PartChunk, Rendered, Lawful;
    var part := Gemini.TextPart(text);
    var f := Gemini.PartChunk(model, part);
    ChunkHasNoName(model, part);
    GeminiRoundTrip.DecoderReadsData(c);
    DecodeRendered(c, Gemini.LineDecoder(c), Gemini.ValueDecoder(c), Gemini.FRESH_SSE, [f]);
    GeminiRoundTrip.OneFrame(c, Gemini.FRESH_SSE, f);
    GeminiRoundTrip.ReadPartChunk(c, Gemini.FRESH_SSE, model, part);
    assert Gemini.PartEvents(c, part) == [TextDelta(text)];
  }

  lemma ChunkHasNoName(model: string, part: Value)
    ensures Gemini.PartChunk(model, part).event == ""
  {
  }

  lemma FirstChunk<D>(decode: Decoder<D>, d: D, text: string)
    ensures NewEvents(decode, d, TextOf([]), text) == DecodeLines(decode, d, Lines(text)).1
  {
    hide DecodeLines, Lines, Rest;
    FirstLine("");
    NoLines(decode, d);
    assert "" + text == text;
  }

  lemma NoLines<D>(decode: Decoder<D>, d: D)
    ensures DecodeLines(decode, d, []) == (d, [])
  {
  }

  lemma NothingIsOver<D, E>(w: Wire<D, E>, d: D, e: E)
    ensures !IsOver(w, d, e, [])
  {
  }

  /** The record and the bytes of a run that stops at its first chunk. */
  lemma FirstVerdict<D, E>(w: Wire<D, E>, d: D, e: E, items: seq<Item>)
    requires items != [] && items[0].Chunk? && IsOver(w, d, e, items) && Reads(w, d, e, items) == 1
    ensures Verdict(w, d, e, items).fold == PushedAll(EMPTY, EventsOf(w, d, items[0].bytes))
  {
    hide IsOver, Reads, EventsOf, PushedAll, Encode, FinalEvents, FinalOutput;
    var read := items[..1];
    assert read == [items[0]] && read[..0] == [];
    assert TextOf(read) == "" + items[0].bytes == items[0].bytes;
  }

  lemma FoldOfText(model: string, text: string)
    ensures PushedAll(EMPTY, [MessageStart(model), TextDelta(text)]).text == text
  {
    assert [MessageStart(model), TextDelta(text)] == [MessageStart(model)] + [TextDelta(text)];
    PushedOne(EMPTY, MessageStart(model));
    PushedSnoc(EMPTY, [MessageStart(model)], TextDelta(text));
    assert "" + text == text;
  }

  /** A Gemini upstream's turn that begins with a text quoting the marker is recorded as
      complete with that text alone, and an Anthropic client is sent nothing of what comes
      later, whatever it is. */
  lemma TurnCutShort(c: Codec, model: string, quote: string, later: seq<Item>)
    requires Lawful(c) && Plain(c) && Contains(quote, MARKER)
    ensures var w, d, e := AnthropicClient(c, Gemini.LineDecoder(c)), Gemini.FRESH_SSE, Anthropic.FRESH_EMIT;
            var items := [Chunk(TextChunk(c, model, quote))] + later;
            && Verdict(w, d, e, items).outcome == Complete
            && Verdict(w, d, e, items).fold.text == quote
            && Run(w, d, e, items).1 ==
               Anthropic.Written(c, Anthropic.EncodedAll(e, [MessageStart(model), TextDelta(quote)]).1)
  {
    hide TextChunk, Verdict, IsOver, Plain, Lawful, Anthropic.EncodedAll, Anthropic.Written, Contains;
    hide Lines, DecodeLines, Run, Reads, PushedAll, Encode, NewEvents;
    var dec := Gemini.LineDecoder(c);
    var w, d, e := AnthropicClient(c, dec), Gemini.FRESH_SSE, Anthropic.FRESH_EMIT;
    var text, events := TextChunk(c, model, quote), [MessageStart(model), TextDelta(quote)];
    var items := [Chunk(text)] + later;
    assert items == [] + [Chunk(text)] + later;
    TextChunkReads(c, model, quote);
    FirstChunk(dec, d, text);
    NothingIsOver(w, d, e);
    assert events[1] in events && Quotes(events[1]);
    QuotingChunkEndsTheRun(c, dec, d, [], text, later);
    FirstVerdict(w, d, e, items);
    AnthropicBytes(c, dec, e, events);
    FoldOfText(model, quote);
    assert TextOf([]) + text == text;
  }

  /** For one: the closing and the last words of this turn are never sent. */
  lemma ATurnCutShort(c: Codec)
    requires Lawful(c) && Plain(c)
    ensures var w, d, e := AnthropicClient(c, Gemini.LineDecoder(c)), Gemini.FRESH_SSE, Anthropic.FRESH_EMIT;
            var rest := Rendered(c, [Gemini.PartChunk("m", Gemini.TextPart(" no more.")),
                                     Gemini.FinishChunk("m", EndTurn, NO_USAGE)]);
            var items := [Chunk(TextChunk(c, "m", QUOTE)), Chunk(rest), Ended];
            && Verdict(w, d, e, items).outcome == Complete
            && Run(w, d, e, items).1 ==
               Anthropic.Written(c, Anthropic.EncodedAll(e, [MessageStart("m"), TextDelta(QUOTE)]).1)
  {
    hide Rendered, Gemini.PartChunk, Gemini.FinishChunk, TextChunk, Run, Verdict, Contains;
    hide Anthropic.Written, Anthropic.EncodedAll, Lawful, Plain;
    var rest := Rendered(c, [Gemini.PartChunk("m", Gemini.TextPart(" no more.")), Gemini.FinishChunk("m", EndTurn, NO_USAGE)]);
    QuoteQuotes();
    TurnCutShort(c, "m", QUOTE, [Chunk(rest), Ended]);
    assert [Chunk(TextChunk(c, "m", QUOTE))] + [Chunk(rest), Ended] ==
           [Chunk(TextChunk(c, "m", QUOTE)), Chunk(rest), Ended];
  }
}
