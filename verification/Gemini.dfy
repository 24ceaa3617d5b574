/**
 The Gemini stream dialect (yb-wire/src/gemini.rs): an encoder that holds each
 tool call back until its arguments are complete, and the decoder.
 */
module Gemini {
  import opened Prelude
  import opened Json
  import opened Ir
  import opened Sse

  // ---------------------------------------------------------------------
  // Finish reasons
  // ---------------------------------------------------------------------

  function FinishText(s: StopReason): string {
    if s == MaxTokens then "MAX_TOKENS" else "STOP"
  }

  function StopOfFinish(finish: string, hasTool: bool): StopReason {
    if finish == "STOP" then (if hasTool then ToolUse else EndTurn)
    else if finish == "MAX_TOKENS" then MaxTokens
    else Other(Lower(finish))
  }

  // ---------------------------------------------------------------------
  // Encoding
  // ---------------------------------------------------------------------

  datatype Emit = Emit(model: string, usage: Option<Usage>, pending: Option<(string, string)>)

  const FRESH_EMIT := Emit("", None, None)

  function Candidate(parts: seq<Value>): map<string, Value> {
    map["content" := Obj(map["role" := Str("model"), "parts" := Arr(parts)]), "index" := Int(0)]
  }

  function PartChunk(model: string, part: Value): Frame {
    Frame("", Obj(map["candidates" := Arr([Obj(Candidate([part]))]), "modelVersion" := Str(model)]))
  }

  function TextPart(text: string): Value {
    Obj(map["text" := Str(text)])
  }

  function CallPart(name: string, args: Value): Value {
    Obj(map["functionCall" := Obj(map["name" := Str(name), "args" := args])])
  }

  /** The total wraps at 32 bits. */
  function UsageValue(u: Usage): Value {
    Obj(map["promptTokenCount" := Int(u.input),
            "candidatesTokenCount" := Int(u.output),
            "totalTokenCount" := Int((u.input + u.output) % 0x1_0000_0000)])
  }

  function FinishChunk(model: string, stop: StopReason, u: Usage): Frame {
    Frame("", Obj(map["candidates" := Arr([Obj(Candidate([])["finishReason" := Str(FinishText(stop))])]),
                      "usageMetadata" := UsageValue(u),
                      "modelVersion" := Str(model)]))
  }

  /** The held-back call, complete, and the state without it. */
  function Flushed(c: Codec, st: Emit): (Emit, seq<Frame>) {
    if st.pending == None then (st, [])
    else
      var (name, args) := st.pending.value;
      (st.(pending := None), [PartChunk(st.model, CallPart(name, ParseOrEmpty(c, args)))])
  }

  function Encoded(c: Codec, st: Emit, e: StreamEvent): (Emit, seq<Frame>) {
    match e
    case MessageStart(model) => (st.(model := model), [])
    case TextDelta(text) => (st, [PartChunk(st.model, TextPart(text))])
    case ThinkingDelta(_) => (st, [])
    case ToolUseStart(_, name) =>
      var (st1, frames) := Flushed(c, st);
      (st1.(pending := Some((name, ""))), frames)
    case ToolUseDelta(more) =>
      if st.pending == None then (st, [])
      else (st.(pending := Some((st.pending.value.0, st.pending.value.1 + more))), [])
    case UsageDelta(usage) => (st.(usage := Some(Merge(st.usage.GetOr(NO_USAGE), usage))), [])
    case Done(stop) =>
      var (st1, frames) := Flushed(c, st);
      (st1, frames + [FinishChunk(st1.model, stop, st1.usage.GetOr(NO_USAGE))])
  }

  function EncodedAll(c: Codec, st: Emit, events: seq<StreamEvent>): (Emit, seq<Frame>) {
    if events == [] then (st, [])
    else
      var (st1, before) := EncodedAll(c, st, events[..|events| - 1]);
      var (st2, frames) := Encoded(c, st1, events[|events| - 1]);
      (st2, before + frames)
  }

  // ---------------------------------------------------------------------
  // Decoding
  // ---------------------------------------------------------------------

  datatype SseView = SseView(started: bool, toolOpen: bool)

  const FRESH_SSE := SseView(false, false)

  function CallOf(part: Value): Option<Value> {
    if Get(part, "functionCall").Some? then Get(part, "functionCall") else Get(part, "function_call")
  }

  function PartEvents(c: Codec, part: Value): seq<StreamEvent> {
    if OptStr(part, "text").Some? then [TextDelta(StrOrEmpty(part, "text"))]
    else if CallOf(part).Some? then
      var call := CallOf(part).value;
      var name := StrOrEmpty(call, "name");
      [ToolUseStart(name, name), ToolUseDelta(c.show(Get(call, "args").GetOr(EMPTY_OBJECT)))]
    else []
  }

  predicate IsCall(part: Value) {
    OptStr(part, "text") == None && CallOf(part).Some?
  }

  predicate AnyCall(parts: seq<Value>) {
    parts != [] && (AnyCall(parts[..|parts| - 1]) || IsCall(parts[|parts| - 1]))
  }

  function PartsEvents(c: Codec, parts: seq<Value>): seq<StreamEvent> {
    if parts == [] then []
    else PartsEvents(c, parts[..|parts| - 1]) + PartEvents(c, parts[|parts| - 1])
  }

  function UsageOf(v: Value): Usage {
    Usage(U32OrZero(v, "promptTokenCount"), U32OrZero(v, "candidatesTokenCount"),
          U32OrZero(v, "cachedContentTokenCount"), 0, 0, 0, 0)
  }

  function FinishEvents(v: Value, candidate: Value, toolOpen: bool): seq<StreamEvent> {
    if OptStr(candidate, "finishReason") == None then []
    else
      (if GetOrNull(v, "usageMetadata") == Null then []
       else [UsageDelta(UsageOf(GetOrNull(v, "usageMetadata")))])
      + [Done(StopOfFinish(StrOrEmpty(candidate, "finishReason"), toolOpen))]
  }

  function FirstCandidate(v: Value): Option<Value> {
    var all := OptArr(v, "candidates");
    if all.Some? && all.value != [] then Some(all.value[0]) else None
  }

  function PartsOf(candidate: Value): seq<Value> {
    OptArr(GetOrNull(candidate, "content"), "parts").GetOr([])
  }

  function DecodedValue(c: Codec, d: SseView, v: Value): (SseView, seq<StreamEvent>) {
    var opening := if d.started then [] else [MessageStart(StrOrEmpty(v, "modelVersion"))];
    match FirstCandidate(v)
    case None => (SseView(true, d.toolOpen), opening)
    case Some(candidate) =>
      var parts := PartsOf(candidate);
      var toolOpen := d.toolOpen || AnyCall(parts);
      (SseView(true, toolOpen),
       opening + PartsEvents(c, parts) + FinishEvents(v, candidate, toolOpen))
  }

  function DecodedLine(c: Codec, d: SseView, line: string): (SseView, seq<StreamEvent>) {
    var data := Data(line);
    if data == None then (d, [])
    else
      var v := c.parse(data.value);
      if v == None then (d, []) else DecodedValue(c, d, v.value)
  }

  function LineDecoder(c: Codec): Decoder<SseView> {
    (d: SseView, line: string) => DecodedLine(c, d, line)
  }

  function ValueDecoder(c: Codec): (SseView, Value) -> (SseView, seq<StreamEvent>) {
    (d: SseView, v: Value) => DecodedValue(c, d, v)
  }

  // ---------------------------------------------------------------------
  // The stateful machines
  // ---------------------------------------------------------------------

  class EmitState {
    var model: string
    var usage: Option<Usage>
    var pendingTool: Option<(string, string)>

    ghost function View(): Emit
      reads this
    {
      Emit(model, usage, pendingTool)
    }

    constructor ()
      ensures View() == FRESH_EMIT
    {
      model, usage, pendingTool := "", None, None;
    }

    method FlushTool(c: Codec, out: string) returns (text: string)
      modifies this
      ensures View() == Flushed(c, old(View())).0
      ensures text == out + Rendered(c, Flushed(c, old(View())).1)
    {
      text := out;
      if pendingTool.Some? {
        var (name, args) := pendingTool.value;
        pendingTool := None;
        text := WriteChunk(c, text, PartChunk(model, CallPart(name, ParseOrEmpty(c, args))));
      }
    }

    method WriteEnd(c: Codec, stop: StopReason, out: string) returns (text: string)
      modifies this
      ensures View() == Encoded(c, old(View()), Done(stop)).0
      ensures text == out + Rendered(c, Encoded(c, old(View()), Done(stop)).1)
    {
      text := FlushTool(c, out);
      ghost var flushed := Flushed(c, old(View())).1;
      var last := FinishChunk(model, stop, usage.GetOr(NO_USAGE));
      text := WriteChunk(c, text, last);
      RenderedConcat(c, flushed, [last]);
      ConcatAssoc(out, Rendered(c, flushed), Rendered(c, [last]));
    }

    method EncodeEvent(c: Codec, e: StreamEvent, out: string) returns (text: string)
      modifies this
      ensures View() == Encoded(c, old(View()), e).0
      ensures text == out + Rendered(c, Encoded(c, old(View()), e).1)
    {
      text := out;
      match e {
        case MessageStart(m) => model := m;
        case TextDelta(t) => text := WriteChunk(c, text, PartChunk(model, TextPart(t)));
        case ThinkingDelta(_) =>
        case ToolUseStart(_, name) =>
          text := FlushTool(c, text);
          pendingTool := Some((name, ""));
        case ToolUseDelta(more) =>
          if pendingTool.Some? {
            pendingTool := Some((pendingTool.value.0, pendingTool.value.1 + more));
          }
        case UsageDelta(u) => usage := Some(Merge(usage.GetOr(NO_USAGE), u));
        case Done(stop) => text := WriteEnd(c, stop, text);
      }
    }

    /** Encodes the events from whatever state the encoder is in. */
    method EncodeSse(c: Codec, events: seq<StreamEvent>) returns (out: string)
      modifies this
      ensures View() == EncodedAll(c, old(View()), events).0
      ensures out == Rendered(c, EncodedAll(c, old(View()), events).1)
    {
      out := "";
      for i := 0 to |events|
        invariant View() == EncodedAll(c, old(View()), events[..i]).0
        invariant out == Rendered(c, EncodedAll(c, old(View()), events[..i]).1)
      {
        RenderedConcat(c, EncodedAll(c, old(View()), events[..i]).1, Encoded(c, View(), events[i]).1);
        out := EncodeEvent(c, events[i], out);
        assert events[..i + 1][..i] == events[..i];
      }
      assert events[..|events|] == events;
    }
  }

  method WriteChunk(c: Codec, out: string, f: Frame) returns (text: string)
    requires f.event == ""
    ensures text == out + Rendered(c, [f])
  {
    text := out + "data: " + c.show(f.data) + "\n\n";
    RenderedOne(c, f);
    DataFrameText("data: " + c.show(f.data));
    assert text == out + ("data: " + c.show(f.data) + "\n\n");
  }

  class SseState {
    var started: bool
    var toolOpen: bool

    ghost function View(): SseView
      reads this
    {
      SseView(started, toolOpen)
    }

    constructor ()
      ensures View() == FRESH_SSE
    {
      started, toolOpen := false, false;
    }

    method DecodeParts(c: Codec, parts: seq<Value>) returns (out: seq<StreamEvent>)
      modifies this
      ensures started == old(started)
      ensures out == PartsEvents(c, parts)
      ensures toolOpen == (old(toolOpen) || AnyCall(parts))
    {
      out := [];
      for i := 0 to |parts|
        invariant started == old(started)
        invariant out == PartsEvents(c, parts[..i])
        invariant toolOpen == (old(toolOpen) || AnyCall(parts[..i]))
      {
        if IsCall(parts[i]) { toolOpen := true; }
        out := out + PartEvents(c, parts[i]);
        assert parts[..i + 1][..i] == parts[..i];
      }
      assert parts[..|parts|] == parts;
    }

    method DecodeSse(c: Codec, line: string) returns (out: seq<StreamEvent>)
      modifies this
      ensures (View(), out) == DecodedLine(c, old(View()), line)
    {
      out := [];
      var data := Data(line);
      if data == None { return; }
      var parsed := c.parse(data.value);
      if parsed == None { return; }
      var v := parsed.value;
      if !started {
        started := true;
        out := [MessageStart(StrOrEmpty(v, "modelVersion"))];
      }
      var candidate := FirstCandidate(v);
      if candidate.Some? {
        var content := DecodeParts(c, PartsOf(candidate.value));
        out := out + content + FinishEvents(v, candidate.value, toolOpen);
      }
    }
  }
}
