/**
 A stream folded into one body for a client that did not ask for a stream
 (yb-gateway/src/service.rs).
 */
module Relay {
  import opened Prelude
  import opened Json
  import opened Ir
  import opened Aggregate
  import opened Sse
  import opened StreamDriver
  import opened Anthropic
  import AnthropicRoundTrip
  import Gemini
  import GeminiRoundTrip

  function Joined(chunks: seq<string>): string {
    if chunks == [] then "" else Joined(chunks[..|chunks| - 1]) + chunks[|chunks| - 1]
  }

  /** What a whole text decodes to, as one response. */
  function Buffered<D>(c: Codec, dec: Decoder<D>, d: D, text: string, id: string): ChatResponse {
    Meaning(c, DecodeLines(dec, d, AllLines(text)).1, id)
  }

  method DrainInto<D>(dec: Decoder<D>, d: D, a: Fold, text: string) returns (d': D, a': Fold, rest: string)
    ensures var (d1, events) := DecodeLines(dec, d, Lines(text));
            d' == d1 && a' == PushedAll(a, events) && rest == Rest(text)
  {
    hide Lines, Rest, DecodeLines, PushedAll;
    d', a', rest := d, a, text;
    ghost var taken: seq<string> := [];
    DecodeNothing(dec, d, a);
    while LineEnd(rest) < |rest|
      invariant Lines(text) == taken + Lines(rest) && Rest(text) == Rest(rest)
      invariant d' == DecodeLines(dec, d, taken).0 && a' == PushedAll(a, DecodeLines(dec, d, taken).1)
      decreases |rest|
    {
      FirstLine(rest);
      var pos := LineEnd(rest);
      var line := rest[..pos];
      rest := rest[pos + 1..];
      ConcatAssoc(taken, [line], Lines(rest));
      DecodeOneLine(dec, d', line);
      DecodeLinesConcat(dec, d, taken, [line]);
      var (d1, events) := dec(d', TrimEol(line));
      PushedAllConcat(a, DecodeLines(dec, d, taken).1, events);
      d', a' := d1, PushedAll(a', events);
      taken := taken + [line];
    }
    FirstLine(rest);
    assert taken + [] == taken;
  }

  lemma DecodeNothing<D>(dec: Decoder<D>, d: D, a: Fold)
    ensures DecodeLines(dec, d, []) == (d, []) && PushedAll(a, []) == a
  {
  }

  /**
   Reads the upstream to its end and folds it into one response. The result
   depends on the joined text only, never on where the chunks were cut; a
   break in the middle files one failed turn and yields nothing.
   */
  method AggregateStream<D>(c: Codec, dec: Decoder<D>, d: D, chunks: seq<string>, broken: bool, id: string)
    returns (r: Option<ChatResponse>, records: seq<Record>)
    ensures broken ==> r == None && records == [Record(NO_USAGE, BrokenOff, EMPTY, 0)]
    ensures !broken ==> r == Some(Buffered(c, dec, d, Joined(chunks), id)) && records == []
  {
    hide Lines, Rest, DecodeLines, PushedAll;
    var state, agg, buf := d, EMPTY, "";
    DecodeNothing(dec, d, EMPTY);
    FirstLine("");
    for i := 0 to |chunks|
      invariant buf == Rest(Joined(chunks[..i]))
      invariant state == DecodeLines(dec, d, Lines(Joined(chunks[..i]))).0
      invariant agg == PushedAll(EMPTY, DecodeLines(dec, d, Lines(Joined(chunks[..i]))).1)
    {
      var before := Joined(chunks[..i]);
      assert chunks[..i + 1][..i] == chunks[..i];
      LinesAcrossCut(before, chunks[i]);
      DecodeLinesConcat(dec, d, Lines(before), Lines(buf + chunks[i]));
      PushedAllConcat(EMPTY, DecodeLines(dec, d, Lines(before)).1, DecodeLines(dec, state, Lines(buf + chunks[i])).1);
      state, agg, buf := DrainInto(dec, state, agg, buf + chunks[i]);
    }
    assert chunks[..|chunks|] == chunks;
    if broken {
      return None, [Record(NO_USAGE, BrokenOff, EMPTY, 0)];
    }
    if buf != "" {
      DecodeOneLine(dec, state, buf);
      DecodeLinesConcat(dec, d, Lines(Joined(chunks)), [buf]);
      var (_, events) := dec(state, TrimEol(buf));
      PushedAllConcat(EMPTY, DecodeLines(dec, d, Lines(Joined(chunks))).1, events);
      agg := PushedAll(agg, events);
    }
    r, records := Some(Response(c, agg, id)), [];
  }

  /** Any cut of a Gemini or an Anthropic upstream's turn is folded to the turn's own meaning. */
  lemma BufferedTurn(c: Codec, events: seq<StreamEvent>, chunks: seq<string>, id: string)
    requires Lawful(c) && IsTurn(events)
    ensures Joined(chunks) == GeminiRoundTrip.Encoding(c, events) ==>
            Buffered(c, Gemini.LineDecoder(c), Gemini.FRESH_SSE, Joined(chunks), id)
            == GeminiRoundTrip.View(Meaning(c, events, id))
    ensures Joined(chunks) == AnthropicRoundTrip.Encoding(c, events) && AnthropicRoundTrip.NoOrphans(events) ==>
            Buffered(c, LineDecoder(c), None, Joined(chunks), id)
            == AnthropicRoundTrip.View(Meaning(c, events, id))
  {
    GeminiRoundTrip.GeminiKeepsMeaning(c, events, id);
    AnthropicRoundTrip.AnthropicKeepsMeaningIff(c, events, id);
  }
}
