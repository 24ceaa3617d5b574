/**
 The Anthropic stream dialect (yb-wire/src/anthropic.rs): an encoder that opens
 and closes numbered content blocks as the events change kind, and the decoder.
 */
module Anthropic {
  import opened Prelude
  import opened Json
  import opened Ir
  import opened Sse

  datatype BlockKind = TextKind | ThinkingKind | ToolKind

  /** The messages an Anthropic stream is made of. */
  datatype Message =
    | StartMessage(model: string)
    | BlockStart(index: nat, block: Block)
    | BlockDelta(index: nat, delta: Delta)
    | BlockStop(index: nat)
    | MessageDelta(stopText: string, outputTokens: U32)
    | StopMessage

  datatype Block = TextBlock | ThinkingBlock | ToolBlock(id: string, name: string) {
    function Kind(): BlockKind {
      match this
      case TextBlock => TextKind
      case ThinkingBlock => ThinkingKind
      case ToolBlock(_, _) => ToolKind
    }
  }

  datatype Delta = TextPiece(text: string) | ThinkingPiece(text: string) | JsonPiece(json: string) {
    function Kind(): BlockKind {
      match this
      case TextPiece(_) => TextKind
      case ThinkingPiece(_) => ThinkingKind
      case JsonPiece(_) => ToolKind
    }
  }

  function EventName(m: Message): string {
    match m
    case StartMessage(_) => "message_start"
    case BlockStart(_, _) => "content_block_start"
    case BlockDelta(_, _) => "content_block_delta"
    case BlockStop(_) => "content_block_stop"
    case MessageDelta(_, _) => "message_delta"
    case StopMessage => "message_stop"
  }

  function BlockValue(b: Block): Value {
    match b
    case TextBlock => Obj(map["type" := Str("text"), "text" := Str("")])
    case ThinkingBlock => Obj(map["type" := Str("thinking"), "thinking" := Str("")])
    case ToolBlock(id, name) =>
      Obj(map["type" := Str("tool_use"), "id" := Str(id), "name" := Str(name), "input" := EMPTY_OBJECT])
  }

  function DeltaValue(d: Delta): Value {
    match d
    case TextPiece(text) => Obj(map["type" := Str("text_delta"), "text" := Str(text)])
    case ThinkingPiece(text) => Obj(map["type" := Str("thinking_delta"), "thinking" := Str(text)])
    case JsonPiece(json) => Obj(map["type" := Str("input_json_delta"), "partial_json" := Str(json)])
  }

  function StartValue(model: string): Value {
    Obj(map["id" := Str("msg_stream"), "type" := Str("message"), "role" := Str("assistant"),
            "model" := Str(model), "content" := Arr([]), "stop_reason" := Null, "stop_sequence" := Null,
            "usage" := Obj(map["input_tokens" := Int(0), "output_tokens" := Int(0)])])
  }

  function MessageValue(m: Message): Value {
    var kind := Str(EventName(m));
    match m
    case StartMessage(model) => Obj(map["type" := kind, "message" := StartValue(model)])
    case BlockStart(index, block) =>
      Obj(map["type" := kind, "index" := Int(index), "content_block" := BlockValue(block)])
    case BlockDelta(index, delta) =>
      Obj(map["type" := kind, "index" := Int(index), "delta" := DeltaValue(delta)])
    case BlockStop(index) => Obj(map["type" := kind, "index" := Int(index)])
    case MessageDelta(stopText, outputTokens) =>
      Obj(map["type" := kind,
              "delta" := Obj(map["stop_reason" := Str(stopText), "stop_sequence" := Null]),
              "usage" := Obj(map["output_tokens" := Int(outputTokens)])])
    case StopMessage => Obj(map["type" := kind])
  }

  function MessageFrame(m: Message): Frame {
    Frame(EventName(m), MessageValue(m))
  }

  function Frames(messages: seq<Message>): seq<Frame> {
    MapSeq(MessageFrame, messages)
  }

  // ---------------------------------------------------------------------
  // Encoding
  // ---------------------------------------------------------------------

  datatype Emit = Emit(started: bool, model: string, nextIndex: nat, open: Option<BlockKind>, usage: Usage)

  const FRESH_EMIT := Emit(false, "", 0, None, NO_USAGE)

  function Started(st: Emit): (Emit, seq<Message>) {
    if st.started then (st, []) else (st.(started := true), [StartMessage(st.model)])
  }

  function Closed(st: Emit): (Emit, seq<Message>) {
    if st.open == None then (st, [])
    else (st.(open := None, nextIndex := st.nextIndex + 1), [BlockStop(st.nextIndex)])
  }

  function EmptyBlock(kind: BlockKind): Block {
    match kind
    case TextKind => TextBlock
    case ThinkingKind => ThinkingBlock
    case ToolKind => ToolBlock("", "")
  }

  /** Opens `block`, starting the message and closing another block first. */
  function Opened(st: Emit, block: Block): (Emit, seq<Message>) {
    var (st1, start) := Started(st);
    var (st2, close) := Closed(st1);
    (st2.(open := Some(block.Kind())), start + close + [BlockStart(st2.nextIndex, block)])
  }

  function Ensured(st: Emit, kind: BlockKind): (Emit, seq<Message>) {
    if st.open == Some(kind) then Started(st) else Opened(st, EmptyBlock(kind))
  }

  function Delivered(st: Emit, delta: Delta): (Emit, seq<Message>) {
    var (st1, before) := Ensured(st, delta.Kind());
    (st1, before + [BlockDelta(st1.nextIndex, delta)])
  }

  function Finished(st: Emit, stop: StopReason): (Emit, seq<Message>) {
    var (st1, start) := Started(st);
    var (st2, close) := Closed(st1);
    (st2, start + close + [MessageDelta(StopText(stop), st2.usage.output), StopMessage])
  }

  function Encoded(st: Emit, e: StreamEvent): (Emit, seq<Message>) {
    match e
    case MessageStart(model) => (st.(model := model, started := true), [StartMessage(model)])
    case TextDelta(text) => Delivered(st, TextPiece(text))
    case ThinkingDelta(text) => Delivered(st, ThinkingPiece(text))
    case ToolUseStart(id, name) => Opened(st, ToolBlock(id, name))
    case ToolUseDelta(json) => Delivered(st, JsonPiece(json))
    case UsageDelta(usage) => (st.(usage := Merge(st.usage, usage)), [])
    case Done(stop) => Finished(st, stop)
  }

  function EncodedAll(st: Emit, events: seq<StreamEvent>): (Emit, seq<Message>) {
    if events == [] then (st, [])
    else
      var (st1, before) := EncodedAll(st, events[..|events| - 1]);
      var (st2, messages) := Encoded(st1, events[|events| - 1]);
      (st2, before + messages)
  }

  // ---------------------------------------------------------------------
  // Decoding
  // ---------------------------------------------------------------------

  /** The stop reason a `message_delta` carried, until `message_stop`. */
  type SseView = Option<StopReason>

  function UsageOf(v: Value): Usage {
    Usage(U32OrZero(v, "input_tokens"), U32OrZero(v, "output_tokens"),
          U32OrZero(v, "cache_read_input_tokens"), U32OrZero(v, "cache_creation_input_tokens"), 0, 0, 0)
  }

  function StartEvents(v: Value): seq<StreamEvent> {
    var msg := GetOrNull(v, "message");
    [MessageStart(StrOrEmpty(msg, "model"))] +
    if GetOrNull(msg, "usage") == Null then [] else [UsageDelta(UsageOf(GetOrNull(msg, "usage")))]
  }

  function BlockStartEvents(v: Value): seq<StreamEvent> {
    var block := GetOrNull(v, "content_block");
    if OptStr(block, "type") == Some("tool_use")
    then [ToolUseStart(StrOrEmpty(block, "id"), StrOrEmpty(block, "name"))]
    else []
  }

  function DeltaEvents(v: Value): seq<StreamEvent> {
    var delta := GetOrNull(v, "delta");
    var kind := OptStr(delta, "type");
    if kind == Some("text_delta") then [TextDelta(StrOrEmpty(delta, "text"))]
    else if kind == Some("thinking_delta") then [ThinkingDelta(StrOrEmpty(delta, "thinking"))]
    else if kind == Some("input_json_delta") then [ToolUseDelta(StrOrEmpty(delta, "partial_json"))]
    else []
  }

  function StopOf(v: Value): StopReason {
    var text := OptStr(GetOrNull(v, "delta"), "stop_reason");
    if text == None then EndTurn else StopFromText(text.value)
  }

  function DecodedValue(d: SseView, v: Value): (SseView, seq<StreamEvent>) {
    var kind := OptStr(v, "type");
    if kind == Some("message_start") then (d, StartEvents(v))
    else if kind == Some("content_block_start") then (d, BlockStartEvents(v))
    else if kind == Some("content_block_delta") then (d, DeltaEvents(v))
    else if kind == Some("message_delta") then
      (Some(StopOf(v)), if Get(v, "usage").Some? then [UsageDelta(UsageOf(Get(v, "usage").value))] else [])
    else if kind == Some("message_stop") then (None, [Done(d.GetOr(EndTurn))])
    else (d, [])
  }

  function DecodedLine(c: Codec, d: SseView, line: string): (SseView, seq<StreamEvent>) {
    var data := Data(line);
    if data == None then (d, [])
    else
      var v := c.parse(data.value);
      if v == None then (d, []) else DecodedValue(d, v.value)
  }

  function LineDecoder(c: Codec): Decoder<SseView> {
    (d: SseView, line: string) => DecodedLine(c, d, line)
  }

  function ValueDecoder(): (SseView, Value) -> (SseView, seq<StreamEvent>) {
    (d: SseView, v: Value) => DecodedValue(d, v)
  }

  // ---------------------------------------------------------------------
  // The stateful machines
  // ---------------------------------------------------------------------

  function Written(c: Codec, messages: seq<Message>): string {
    Rendered(c, Frames(messages))
  }

  lemma WrittenConcat(c: Codec, xs: seq<Message>, ys: seq<Message>)
    ensures Written(c, xs + ys) == Written(c, xs) + Written(c, ys)
  {
    MapSeqConcat(MessageFrame, xs, ys);
    RenderedConcat(c, Frames(xs), Frames(ys));
  }

  lemma WrittenAfter(c: Codec, out: string, xs: seq<Message>, ys: seq<Message>)
    ensures (out + Written(c, xs)) + Written(c, ys) == out + Written(c, xs + ys)
  {
    WrittenConcat(c, xs, ys);
    ConcatAssoc(out, Written(c, xs), Written(c, ys));
  }

  lemma WrittenOne(c: Codec, m: Message)
    ensures Written(c, [m]) == FrameText(c, MessageFrame(m), "")
  {
    MapSeqOne(MessageFrame, m);
    RenderedOne(c, MessageFrame(m));
  }

  method WriteEvent(c: Codec, out: string, m: Message) returns (text: string)
    ensures text == out + Written(c, [m])
  {
    var name, data := EventName(m), c.show(MessageValue(m));
    text := out + "event: " + name + "\n" + "data: " + data + "\n\n";
    WrittenOne(c, m);
    NamedFrameText(c, MessageFrame(m));
    assert text == out + ("event: " + name + "\n" + "data: " + data + "\n\n");
  }

  class EmitState {
    var started: bool
    var model: string
    var nextIndex: nat
    var open: Option<BlockKind>
    var usage: Usage

    ghost function View(): Emit
      reads this
    {
      Emit(started, model, nextIndex, open, usage)
    }

    constructor ()
      ensures View() == FRESH_EMIT
    {
      started, model, nextIndex, open, usage := false, "", 0, None, NO_USAGE;
    }

    method EnsureStarted(c: Codec, out: string) returns (text: string)
      modifies this
      ensures View() == Started(old(View())).0
      ensures text == out + Written(c, Started(old(View())).1)
    {
      text := out;
      if !started {
        started := true;
        text := WriteEvent(c, text, StartMessage(model));
      }
    }

    method CloseOpen(c: Codec, out: string) returns (text: string)
      modifies this
      ensures View() == Closed(old(View())).0
      ensures text == out + Written(c, Closed(old(View())).1)
    {
      text := out;
      if open.Some? {
        open := None;
        text := WriteEvent(c, text, BlockStop(nextIndex));
        nextIndex := nextIndex + 1;
      }
    }

    method OpenBlock(c: Codec, out: string, block: Block) returns (text: string)
      modifies this
      ensures View() == Opened(old(View()), block).0
      ensures text == out + Written(c, Opened(old(View()), block).1)
    {
      text := EnsureStarted(c, out);
      ghost var start := Started(old(View()));
      ghost var close := Closed(start.0);
      WrittenAfter(c, out, start.1, close.1);
      text := CloseOpen(c, text);
      WrittenAfter(c, out, start.1 + close.1, [BlockStart(nextIndex, block)]);
      text := WriteEvent(c, text, BlockStart(nextIndex, block));
      open := Some(block.Kind());
    }

    method EnsureBlock(c: Codec, out: string, kind: BlockKind) returns (text: string)
      modifies this
      ensures View() == Ensured(old(View()), kind).0
      ensures text == out + Written(c, Ensured(old(View()), kind).1)
    {
      if open == Some(kind) {
        text := EnsureStarted(c, out);
      } else {
        text := OpenBlock(c, out, EmptyBlock(kind));
      }
    }

    method WriteDelta(c: Codec, out: string, delta: Delta) returns (text: string)
      modifies this
      ensures View() == Delivered(old(View()), delta).0
      ensures text == out + Written(c, Delivered(old(View()), delta).1)
    {
      text := EnsureBlock(c, out, delta.Kind());
      WrittenAfter(c, out, Ensured(old(View()), delta.Kind()).1, [BlockDelta(nextIndex, delta)]);
      text := WriteEvent(c, text, BlockDelta(nextIndex, delta));
    }

    method WriteEnd(c: Codec, out: string, stop: StopReason) returns (text: string)
      modifies this
      ensures View() == Finished(old(View()), stop).0
      ensures text == out + Written(c, Finished(old(View()), stop).1)
    {
      text := EnsureStarted(c, out);
      ghost var start := Started(old(View()));
      ghost var close := Closed(start.0);
      WrittenAfter(c, out, start.1, close.1);
      text := CloseOpen(c, text);
      var last := MessageDelta(StopText(stop), usage.output);
      WrittenAfter(c, out, start.1 + close.1, [last]);
      text := WriteEvent(c, text, last);
      WrittenAfter(c, out, start.1 + close.1 + [last], [StopMessage]);
      text := WriteEvent(c, text, StopMessage);
      assert start.1 + close.1 + [last] + [StopMessage] == start.1 + close.1 + [last, StopMessage];
    }

    method EncodeEvent(c: Codec, e: StreamEvent, out: string) returns (text: string)
      modifies this
      ensures View() == Encoded(old(View()), e).0
      ensures text == out + Written(c, Encoded(old(View()), e).1)
    {
      text := out;
      match e {
        case MessageStart(m) =>
          model, started := m, true;
          text := WriteEvent(c, text, StartMessage(m));
        case TextDelta(t) => text := WriteDelta(c, text, TextPiece(t));
        case ThinkingDelta(t) => text := WriteDelta(c, text, ThinkingPiece(t));
        case ToolUseStart(id, name) => text := OpenBlock(c, text, ToolBlock(id, name));
        case ToolUseDelta(json) => text := WriteDelta(c, text, JsonPiece(json));
        case UsageDelta(u) => usage := Merge(usage, u);
        case Done(stop) => text := WriteEnd(c, text, stop);
      }
    }

    /** Encodes the events from whatever state the encoder is in. */
    method EncodeSse(c: Codec, events: seq<StreamEvent>) returns (out: string)
      modifies this
      ensures View() == EncodedAll(old(View()), events).0
      ensures out == Written(c, EncodedAll(old(View()), events).1)
    {
      out := "";
      for i := 0 to |events|
        invariant View() == EncodedAll(old(View()), events[..i]).0
        invariant out == Written(c, EncodedAll(old(View()), events[..i]).1)
      {
        WrittenConcat(c, EncodedAll(old(View()), events[..i]).1, Encoded(View(), events[i]).1);
        out := EncodeEvent(c, events[i], out);
        assert events[..i + 1][..i] == events[..i];
      }
      assert events[..|events|] == events;
    }
  }

  class SseState {
    var stopReason: Option<StopReason>

    constructor ()
      ensures stopReason == None
    {
      stopReason := None;
    }

    method DecodeSse(c: Codec, line: string) returns (out: seq<StreamEvent>)
      modifies this
      ensures (stopReason, out) == DecodedLine(c, old(stopReason), line)
    {
      out := [];
      var data := Data(line);
      if data == None { return; }
      var parsed := c.parse(data.value);
      if parsed == None { return; }
      var v := parsed.value;
      match OptStr(v, "type") {
        case None =>
        case Some(kind) =>
          if kind == "message_start" {
            out := StartEvents(v);
          } else if kind == "content_block_start" {
            out := BlockStartEvents(v);
          } else if kind == "content_block_delta" {
            out := DeltaEvents(v);
          } else if kind == "message_delta" {
            stopReason := Some(StopOf(v));
            if Get(v, "usage").Some? { out := [UsageDelta(UsageOf(Get(v, "usage").value))]; }
          } else if kind == "message_stop" {
            out := [Done(stopReason.GetOr(EndTurn))];
            stopReason := None;
          }
      }
    }
  }
}
