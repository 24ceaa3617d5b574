/**
 What an Anthropic upstream's lines mean (yb-wire/src/anthropic.rs), said of their JSON
 alone: the counts each usage object reports, the events each message gives, and the
 counts a whole stream comes to.
 */
module AnthropicReading {
  import opened Prelude
  import opened Json
  import opened Ir
  import opened Aggregate
  import opened Sse
  import opened Reading
  import opened Anthropic
  import AnthropicRoundTrip

  /** The four counts of a usage object. */
  ghost predicate CountsAll(u: Value, input: U32, output: U32, read: U32, written: U32) {
    && Counts(u, "input_tokens", input) && Counts(u, "output_tokens", output)
    && Counts(u, "cache_read_input_tokens", read) && Counts(u, "cache_creation_input_tokens", written)
  }

  lemma UsageRead(u: Value, input: U32, output: U32, read: U32, written: U32)
    requires CountsAll(u, input, output, read, written)
    ensures UsageOf(u) == Usage(input, output, read, written, 0, 0, 0)
  {
    assert U32OrZero(u, "input_tokens") == input;
    assert U32OrZero(u, "output_tokens") == output;
    assert U32OrZero(u, "cache_read_input_tokens") == read;
    assert U32OrZero(u, "cache_creation_input_tokens") == written;
  }

  lemma ShownLine(c: Codec, d: SseView, v: Value)
    requires Lawful(c)
    ensures DecodedLine(c, d, "data: " + c.show(v)) == DecodedValue(d, v)
  {
    DataOfShown(c, v);
  }

  // ---------------------------------------------------------------------
  // Line by line
  // ---------------------------------------------------------------------

  /** The opening of a stream: the model and the counts it reports. */
  lemma StartLine(c: Codec, d: SseView, v: Value, msg: Value, u: Value, model: string,
                  input: U32, output: U32, read: U32, written: U32)
    requires Lawful(c) && Has(v, "type", Str("message_start")) && Has(v, "message", msg)
    requires TextIs(msg, "model", model) && Has(msg, "usage", u) && u != Null
    requires CountsAll(u, input, output, read, written)
    ensures DecodedLine(c, d, "data: " + c.show(v)) ==
            (d, [MessageStart(model), UsageDelta(Usage(input, output, read, written, 0, 0, 0))])
  {
    hide CountsAll;
    ShownLine(c, d, v);
    UsageRead(u, input, output, read, written);
    assert OptStr(v, "type") == Some("message_start");
    assert GetOrNull(v, "message") == msg && GetOrNull(msg, "usage") == u;
    TextIsRead(msg, "model", model);
    StartIs(v, msg, u);
  }

  lemma StartIs(v: Value, msg: Value, u: Value)
    requires GetOrNull(v, "message") == msg && GetOrNull(msg, "usage") == u
    ensures StartEvents(v) ==
            if u == Null then [MessageStart(StrOrEmpty(msg, "model"))]
            else [MessageStart(StrOrEmpty(msg, "model")), UsageDelta(UsageOf(u))]
  {
    hide UsageOf;
    var start := [MessageStart(StrOrEmpty(msg, "model"))];
    assert start + [] == start;
    assert start + [UsageDelta(UsageOf(u))] == [start[0], UsageDelta(UsageOf(u))];
  }

  lemma StartLineWithoutUsage(c: Codec, d: SseView, v: Value, msg: Value, model: string)
    requires Lawful(c) && Has(v, "type", Str("message_start")) && Has(v, "message", msg)
    requires TextIs(msg, "model", model) && Lacks(msg, "usage")
    ensures DecodedLine(c, d, "data: " + c.show(v)) == (d, [MessageStart(model)])
  {
    ShownLine(c, d, v);
    assert OptStr(v, "type") == Some("message_start");
    assert GetOrNull(v, "message") == msg && GetOrNull(msg, "usage") == Null;
    TextIsRead(msg, "model", model);
    StartIs(v, msg, Null);
  }

  /** The reasons a stream may stop for, and any other kept as it is. */
  ghost predicate SaysStop(delta: Value, stop: StopReason) {
    match stop
    case EndTurn => Has(delta, "stop_reason", Str("end_turn")) || Lacks(delta, "stop_reason")
    case MaxTokens => Has(delta, "stop_reason", Str("max_tokens"))
    case StopSequence => Has(delta, "stop_reason", Str("stop_sequence"))
    case ToolUse => Has(delta, "stop_reason", Str("tool_use"))
    case Other(reason) =>
      Has(delta, "stop_reason", Str(reason)) && reason !in ["end_turn", "max_tokens", "stop_sequence", "tool_use"]
  }

  /** The reason near the end, which waits for the stop, and the counts when there are any. */
  lemma DeltaLine(c: Codec, d: SseView, v: Value, delta: Value, stop: StopReason, u: Value,
                  input: U32, output: U32, read: U32, written: U32)
    requires Lawful(c) && Has(v, "type", Str("message_delta")) && Has(v, "delta", delta) && SaysStop(delta, stop)
    requires CountsAll(u, input, output, read, written)
    ensures Has(v, "usage", u) ==>
              DecodedLine(c, d, "data: " + c.show(v)) ==
              (Some(stop), [UsageDelta(Usage(input, output, read, written, 0, 0, 0))])
    ensures !Holds(v, "usage") ==> DecodedLine(c, d, "data: " + c.show(v)) == (Some(stop), [])
  {
    hide CountsAll;
    ShownLine(c, d, v);
    UsageRead(u, input, output, read, written);
    assert OptStr(v, "type") == Some("message_delta");
    assert GetOrNull(v, "delta") == delta;
    StopRead(v, delta, stop);
  }

  lemma StopRead(v: Value, delta: Value, stop: StopReason)
    requires Has(v, "delta", delta) && SaysStop(delta, stop)
    ensures StopOf(v) == stop
  {
    assert GetOrNull(v, "delta") == delta;
    assert Lacks(delta, "stop_reason") ==> OptStr(delta, "stop_reason") == None;
  }

  lemma StopLine(c: Codec, d: SseView, v: Value)
    requires Lawful(c) && Has(v, "type", Str("message_stop"))
    ensures DecodedLine(c, d, "data: " + c.show(v)) == (None, [Done(if d.Some? then d.value else EndTurn)])
  {
    ShownLine(c, d, v);
    assert OptStr(v, "type") == Some("message_stop");
  }

  /** A tool call's start; other blocks start without an event. */
  lemma CallLine(c: Codec, d: SseView, v: Value, block: Value, id: string, name: string)
    requires Lawful(c) && Has(v, "type", Str("content_block_start")) && Has(v, "content_block", block)
    ensures Has(block, "type", Str("tool_use")) && TextIs(block, "id", id) && TextIs(block, "name", name) ==>
              DecodedLine(c, d, "data: " + c.show(v)) == (d, [ToolUseStart(id, name)])
    ensures !Has(block, "type", Str("tool_use")) ==> DecodedLine(c, d, "data: " + c.show(v)) == (d, [])
  {
    ShownLine(c, d, v);
    assert OptStr(v, "type") == Some("content_block_start");
    assert GetOrNull(v, "content_block") == block;
    TextRead(block, "type");
    if TextIs(block, "id", id) && TextIs(block, "name", name) {
      TextIsRead(block, "id", id);
      TextIsRead(block, "name", name);
    }
  }

  /** A piece of text, of thought or of a call's input; other kinds give nothing. */
  lemma PieceLine(c: Codec, d: SseView, v: Value, delta: Value, kind: string, piece: string)
    requires Lawful(c) && Has(v, "type", Str("content_block_delta")) && Has(v, "delta", delta) && TextIs(delta, "type", kind)
    ensures kind == "text_delta" && TextIs(delta, "text", piece) ==>
              DecodedLine(c, d, "data: " + c.show(v)) == (d, [TextDelta(piece)])
    ensures kind == "thinking_delta" && TextIs(delta, "thinking", piece) ==>
              DecodedLine(c, d, "data: " + c.show(v)) == (d, [ThinkingDelta(piece)])
    ensures kind == "input_json_delta" && TextIs(delta, "partial_json", piece) ==>
              DecodedLine(c, d, "data: " + c.show(v)) == (d, [ToolUseDelta(piece)])
    ensures kind !in ["text_delta", "thinking_delta", "input_json_delta"] ==>
              DecodedLine(c, d, "data: " + c.show(v)) == (d, [])
  {
    hide StrOrEmpty, TextIs, StartEvents, BlockStartEvents, StopOf, UsageOf;
    ShownLine(c, d, v);
    assert OptStr(v, "type") == Some("content_block_delta");
    assert GetOrNull(v, "delta") == delta;
    KindRead(delta, kind);
    if TextIs(delta, "text", piece) { TextIsRead(delta, "text", piece); }
    if TextIs(delta, "thinking", piece) { TextIsRead(delta, "thinking", piece); }
    if TextIs(delta, "partial_json", piece) { TextIsRead(delta, "partial_json", piece); }
  }

  lemma KindRead(v: Value, kind: string)
    requires TextIs(v, "type", kind)
    ensures OptStr(v, "type") == Some(kind) || (kind == "" && OptStr(v, "type") == None)
  {
    TextRead(v, "type");
  }

  /** Pings, errors, block stops and whatever else a stream may hold give nothing. */
  lemma OtherLine(c: Codec, d: SseView, v: Value)
    requires Lawful(c)
    requires !Has(v, "type", Str("message_start")) && !Has(v, "type", Str("content_block_start"))
    requires !Has(v, "type", Str("content_block_delta")) && !Has(v, "type", Str("message_delta"))
    requires !Has(v, "type", Str("message_stop"))
    ensures DecodedLine(c, d, "data: " + c.show(v)) == (d, [])
  {
    ShownLine(c, d, v);
    OtherValue(d, v);
  }

  lemma OtherValue(d: SseView, v: Value)
    requires !Has(v, "type", Str("message_start")) && !Has(v, "type", Str("content_block_start"))
    requires !Has(v, "type", Str("content_block_delta")) && !Has(v, "type", Str("message_delta"))
    requires !Has(v, "type", Str("message_stop"))
    ensures DecodedValue(d, v) == (d, [])
  {
    hide StartEvents, BlockStartEvents, DeltaEvents, StopOf, UsageOf;
  }

  // ---------------------------------------------------------------------
  // A whole stream's counts
  // ---------------------------------------------------------------------

  /** The counts a payload reports, none where it reports none. */
  ghost predicate Says(v: Value, report: Usage) {
    if Has(v, "type", Str("message_start")) && Holds(v, "message") && !Lacks(v.fields["message"], "usage")
    then SaysCounts(v.fields["message"].fields["usage"], report)
    else if Has(v, "type", Str("message_delta")) && Holds(v, "usage") then SaysCounts(v.fields["usage"], report)
    else report == Usage(0, 0, 0, 0, 0, 0, 0)
  }

  ghost predicate SaysCounts(u: Value, report: Usage) {
    && CountsAll(u, report.input, report.output, report.cacheRead, report.cacheWrite)
    && report.reasoning == 0 && report.promptMs == 0 && report.generationMs == 0
  }

  lemma CountsRead(u: Value, report: Usage)
    requires SaysCounts(u, report)
    ensures UsageOf(u) == report
  {
    UsageRead(u, report.input, report.output, report.cacheRead, report.cacheWrite);
  }

  lemma EventsSay(d: SseView, v: Value, a: Fold, report: Usage)
    requires Says(v, report)
    ensures PushedAll(a, DecodedValue(d, v).1).usage == Merge(a.usage, report)
  {
    hide SaysCounts, UsageOf, PushedAll, Merge;
    TextRead(v, "type");
    var events := DecodedValue(d, v).1;
    if Has(v, "type", Str("message_start")) {
      var msg := GetOrNull(v, "message");
      var start, u := MessageStart(StrOrEmpty(msg, "model")), GetOrNull(msg, "usage");
      StartIs(v, msg, u);
      if u != Null {
        CountsRead(u, report);
        ReportAmong(a, [start], report, []);
        assert events == [start] + [UsageDelta(report)] + [];
      } else {
        Unreported(a, events);
      }
    } else if Has(v, "type", Str("message_delta")) && Holds(v, "usage") {
      CountsRead(v.fields["usage"], report);
      ReportAmong(a, [], report, []);
      assert events == [] + [UsageDelta(report)] + [];
    } else {
      Unreported(a, events);
    }
  }

  /** The usage of a whole upstream text is the field-wise maximum of the counts its payloads report. */
  lemma StreamUsage(c: Codec, frames: seq<Frame>, reports: seq<Usage>, id: string)
    requires Lawful(c) && |reports| == |frames|
    requires forall k :: 0 <= k < |frames| ==> '\n' !in frames[k].event && Says(frames[k].data, reports[k])
    ensures IsMaximum(Meaning(c, AnthropicRoundTrip.Decoding(c, Rendered(c, frames)), id).usage, reports)
  {
    hide IsMaximum, PushedAll, DecodeFrames, Merge;
    forall k | 0 <= k < |frames|
      ensures Adds(ValueDecoder(), frames[k].data, reports[k])
    {
      forall d, a
        ensures PushedAll(a, DecodedValue(d, frames[k].data).1).usage == Merge(a.usage, reports[k])
      {
        EventsSay(d, frames[k].data, a, reports[k]);
      }
    }
    AnthropicRoundTrip.DecoderReadsData(c);
    DecodeRendered(c, LineDecoder(c), ValueDecoder(), None, frames);
    FramesUsage(ValueDecoder(), None, frames, reports);
  }
}
