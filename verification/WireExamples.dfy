/**
 One turn in each dialect, frame by frame as a client gets it: a thought, some text, a call
 whose arguments come in two pieces, the counts and a stop.
 */
module WireExamples {
  import opened Prelude
  import opened Json
  import opened Ir
  import opened Aggregate
  import opened Sse
  import Anthropic
  import Gemini

  /** What the turn says. */
  datatype Said = Said(model: string, thought: string, text: string, id: string, name: string,
                       first: string, second: string, usage: Usage, stop: StopReason)

  function Events(t: Said): seq<StreamEvent> {
    [MessageStart(t.model), ThinkingDelta(t.thought), TextDelta(t.text), ToolUseStart(t.id, t.name),
     ToolUseDelta(t.first), ToolUseDelta(t.second), UsageDelta(t.usage), Done(t.stop)]
  }

  // ---------------------------------------------------------------------
  // Anthropic
  // ---------------------------------------------------------------------

  function Numbered(kind: string, index: int, key: string, v: Value): Frame {
    Frame(kind, Obj(map["type" := Str(kind), "index" := Int(index), key := v]))
  }

  function Stopped(index: int): Frame {
    Frame("content_block_stop", Obj(map["type" := Str("content_block_stop"), "index" := Int(index)]))
  }

  function AnthropicOpening(t: Said): Frame {
    Frame("message_start",
      Obj(map["type" := Str("message_start"),
              "message" := Obj(map[
                "id" := Str("msg_stream"), "type" := Str("message"), "role" := Str("assistant"),
                "model" := Str(t.model), "content" := Arr([]), "stop_reason" := Null, "stop_sequence" := Null,
                "usage" := Obj(map["input_tokens" := Int(0), "output_tokens" := Int(0)])])]))
  }

  function AnthropicBlocks(t: Said): seq<Frame> {
    [Numbered("content_block_start", 0, "content_block", Obj(map["type" := Str("thinking"), "thinking" := Str("")])),
     Numbered("content_block_delta", 0, "delta", Obj(map["type" := Str("thinking_delta"), "thinking" := Str(t.thought)])),
     Stopped(0),
     Numbered("content_block_start", 1, "content_block", Obj(map["type" := Str("text"), "text" := Str("")])),
     Numbered("content_block_delta", 1, "delta", Obj(map["type" := Str("text_delta"), "text" := Str(t.text)])),
     Stopped(1),
     Numbered("content_block_start", 2, "content_block",
       Obj(map["type" := Str("tool_use"), "id" := Str(t.id), "name" := Str(t.name), "input" := Obj(map[])])),
     Numbered("content_block_delta", 2, "delta", Obj(map["type" := Str("input_json_delta"), "partial_json" := Str(t.first)])),
     Numbered("content_block_delta", 2, "delta", Obj(map["type" := Str("input_json_delta"), "partial_json" := Str(t.second)])),
     Stopped(2)]
  }

  function AnthropicClosing(t: Said): seq<Frame> {
    [Frame("message_delta",
       Obj(map["type" := Str("message_delta"),
               "delta" := Obj(map["stop_reason" := Str(AnthropicReason(t.stop)), "stop_sequence" := Null]),
               "usage" := Obj(map["output_tokens" := Int(t.usage.output)])])),
     Frame("message_stop", Obj(map["type" := Str("message_stop")]))]
  }

  function AnthropicReason(s: StopReason): string {
    match s
    case EndTurn => "end_turn"
    case MaxTokens => "max_tokens"
    case StopSequence => "stop_sequence"
    case ToolUse => "tool_use"
    case Other(reason) => reason
  }

  function AnthropicBlockMessages(t: Said): seq<Anthropic.Message> {
    [Anthropic.BlockStart(0, Anthropic.ThinkingBlock), Anthropic.BlockDelta(0, Anthropic.ThinkingPiece(t.thought)),
     Anthropic.BlockStop(0),
     Anthropic.BlockStart(1, Anthropic.TextBlock), Anthropic.BlockDelta(1, Anthropic.TextPiece(t.text)),
     Anthropic.BlockStop(1),
     Anthropic.BlockStart(2, Anthropic.ToolBlock(t.id, t.name)), Anthropic.BlockDelta(2, Anthropic.JsonPiece(t.first)),
     Anthropic.BlockDelta(2, Anthropic.JsonPiece(t.second)),
     Anthropic.BlockStop(2)]
  }

  function AnthropicClosingMessages(t: Said): seq<Anthropic.Message> {
    [Anthropic.MessageDelta(AnthropicReason(t.stop), t.usage.output), Anthropic.StopMessage]
  }

  /** The messages of that turn. */
  function AnthropicMessages(t: Said): seq<Anthropic.Message> {
    [Anthropic.StartMessage(t.model)] + AnthropicBlockMessages(t) + AnthropicClosingMessages(t)
  }

  /** One more event, and the messages it adds. */
  lemma AnthropicStep(events: seq<StreamEvent>, k: nat, st: Anthropic.Emit, all: seq<Anthropic.Message>, i: nat, j: nat,
                      st': Anthropic.Emit)
    requires k < |events| && i <= j <= |all|
    requires Anthropic.EncodedAll(Anthropic.FRESH_EMIT, events[..k]) == (st, all[..i])
    requires Anthropic.Encoded(st, events[k]) == (st', all[i..j])
    ensures Anthropic.EncodedAll(Anthropic.FRESH_EMIT, events[..k + 1]) == (st', all[..j])
  {
    hide Anthropic.Encoded;
    assert events[..k + 1][..k] == events[..k];
    assert all[..i] + all[i..j] == all[..j];
  }

  /** A piece of another kind than the open block: that one is closed and a new one opened. */
  lemma PieceOpens(st: Anthropic.Emit, delta: Anthropic.Delta, index: nat)
    requires st.started && st.open != Some(delta.Kind())
    requires index == st.nextIndex + if st.open == None then 0 else 1
    ensures Anthropic.Delivered(st, delta) ==
            (st.(open := Some(delta.Kind()), nextIndex := index),
             (if st.open == None then [] else [Anthropic.BlockStop(st.nextIndex)]) +
             [Anthropic.BlockStart(index, Anthropic.EmptyBlock(delta.Kind())), Anthropic.BlockDelta(index, delta)])
  {
    var close := if st.open == None then [] else [Anthropic.BlockStop(st.nextIndex)];
    var open, piece := Anthropic.BlockStart(index, Anthropic.EmptyBlock(delta.Kind())), Anthropic.BlockDelta(index, delta);
    assert ([] + close) + [open] + [piece] == close + [open, piece];
    assert Anthropic.EmptyBlock(delta.Kind()).Kind() == delta.Kind();
  }

  lemma CallOpens(st: Anthropic.Emit, id: string, name: string)
    requires st.started && st.open != None
    ensures Anthropic.Opened(st, Anthropic.ToolBlock(id, name)) ==
            (st.(open := Some(Anthropic.ToolKind), nextIndex := st.nextIndex + 1),
             [Anthropic.BlockStop(st.nextIndex), Anthropic.BlockStart(st.nextIndex + 1, Anthropic.ToolBlock(id, name))])
  {
    var stop, open := Anthropic.BlockStop(st.nextIndex), Anthropic.BlockStart(st.nextIndex + 1, Anthropic.ToolBlock(id, name));
    assert [] + [stop] + [open] == [stop, open];
  }

  lemma EndCloses(st: Anthropic.Emit, stop: StopReason)
    requires st.started && st.open != None
    ensures Anthropic.Finished(st, stop).1 ==
            [Anthropic.BlockStop(st.nextIndex), Anthropic.MessageDelta(AnthropicReason(stop), st.usage.output), Anthropic.StopMessage]
  {
    var last := Anthropic.MessageDelta(AnthropicReason(stop), st.usage.output);
    assert StopText(stop) == AnthropicReason(stop);
    assert [] + [Anthropic.BlockStop(st.nextIndex)] + [last, Anthropic.StopMessage] ==
           [Anthropic.BlockStop(st.nextIndex), last, Anthropic.StopMessage];
  }

  /** The encoder after the thought and the text. */
  lemma AnthropicPieces(t: Said)
    ensures Anthropic.EncodedAll(Anthropic.FRESH_EMIT, Events(t)[..3]) ==
            (Anthropic.Emit(true, t.model, 1, Some(Anthropic.TextKind), NO_USAGE), AnthropicMessages(t)[..6])
  {
    var events, all := Events(t), AnthropicMessages(t);
    var st1 := Anthropic.Emit(true, t.model, 0, None, NO_USAGE);
    var st2 := st1.(open := Some(Anthropic.ThinkingKind));
    assert Anthropic.EncodedAll(Anthropic.FRESH_EMIT, events[..0]) == (Anthropic.FRESH_EMIT, all[..0]);
    assert all[0..1] == [Anthropic.StartMessage(t.model)];
    AnthropicStep(events, 0, Anthropic.FRESH_EMIT, all, 0, 1, st1);
    hide Anthropic.Delivered, Anthropic.EncodedAll;
    PieceOpens(st1, Anthropic.ThinkingPiece(t.thought), 0);
    assert all[1..3] == [] + [Anthropic.BlockStart(0, Anthropic.ThinkingBlock), Anthropic.BlockDelta(0, Anthropic.ThinkingPiece(t.thought))];
    AnthropicStep(events, 1, st1, all, 1, 3, st2);
    PieceOpens(st2, Anthropic.TextPiece(t.text), 1);
    assert all[3..6] == [Anthropic.BlockStop(0)] +
      [Anthropic.BlockStart(1, Anthropic.TextBlock), Anthropic.BlockDelta(1, Anthropic.TextPiece(t.text))];
    AnthropicStep(events, 2, st2, all, 3, 6, st2.(open := Some(Anthropic.TextKind), nextIndex := 1));
  }

  lemma MorePiece(st: Anthropic.Emit, delta: Anthropic.Delta)
    requires st.started && st.open == Some(delta.Kind())
    ensures Anthropic.Delivered(st, delta) == (st, [Anthropic.BlockDelta(st.nextIndex, delta)])
  {
    var more := [Anthropic.BlockDelta(st.nextIndex, delta)];
    assert [] + more == more;
  }

  /** And after the call and the counts. */
  lemma AnthropicCall(t: Said)
    ensures Anthropic.EncodedAll(Anthropic.FRESH_EMIT, Events(t)[..7]) ==
            (Anthropic.Emit(true, t.model, 2, Some(Anthropic.ToolKind), Merge(NO_USAGE, t.usage)), AnthropicMessages(t)[..10])
  {
    hide Anthropic.Opened, Anthropic.Delivered, Merge, Anthropic.EncodedAll;
    var events, all := Events(t), AnthropicMessages(t);
    AnthropicPieces(t);
    var st3 := Anthropic.Emit(true, t.model, 1, Some(Anthropic.TextKind), NO_USAGE);
    var st4 := st3.(open := Some(Anthropic.ToolKind), nextIndex := 2);
    CallOpens(st3, t.id, t.name);
    assert all[6..8] == [Anthropic.BlockStop(1), Anthropic.BlockStart(2, Anthropic.ToolBlock(t.id, t.name))];
    AnthropicStep(events, 3, st3, all, 6, 8, st4);
    MorePiece(st4, Anthropic.JsonPiece(t.first));
    assert all[8..9] == [Anthropic.BlockDelta(2, Anthropic.JsonPiece(t.first))];
    AnthropicStep(events, 4, st4, all, 8, 9, st4);
    MorePiece(st4, Anthropic.JsonPiece(t.second));
    assert all[9..10] == [Anthropic.BlockDelta(2, Anthropic.JsonPiece(t.second))];
    AnthropicStep(events, 5, st4, all, 9, 10, st4);
    assert all[10..10] == [];
    AnthropicStep(events, 6, st4, all, 10, 10, st4.(usage := Merge(NO_USAGE, t.usage)));
  }

  lemma AnthropicTurn(t: Said)
    ensures Anthropic.EncodedAll(Anthropic.FRESH_EMIT, Events(t)).1 == AnthropicMessages(t)
  {
    hide Anthropic.Finished, Anthropic.EncodedAll;
    var events, all := Events(t), AnthropicMessages(t);
    AnthropicCall(t);
    var st := Anthropic.Emit(true, t.model, 2, Some(Anthropic.ToolKind), Merge(NO_USAGE, t.usage));
    EndCloses(st, t.stop);
    assert Merge(NO_USAGE, t.usage) == t.usage;
    assert all[10..13] ==
           [Anthropic.BlockStop(2), Anthropic.MessageDelta(AnthropicReason(t.stop), t.usage.output), Anthropic.StopMessage];
    AnthropicStep(events, 7, st, all, 10, 13, Anthropic.Finished(st, t.stop).0);
    assert events[..8] == events && all[..13] == all;
  }

  lemma AnthropicEnds(t: Said)
    ensures Anthropic.MessageFrame(Anthropic.StartMessage(t.model)) == AnthropicOpening(t)
    ensures Anthropic.Frames(AnthropicClosingMessages(t)) == AnthropicClosing(t)
  {
  }

  lemma BlockFrames(index: nat, block: Anthropic.Block, delta: Anthropic.Delta)
    ensures Anthropic.MessageFrame(Anthropic.BlockStart(index, block)) ==
            Numbered("content_block_start", index, "content_block", Anthropic.BlockValue(block))
    ensures Anthropic.MessageFrame(Anthropic.BlockDelta(index, delta)) ==
            Numbered("content_block_delta", index, "delta", Anthropic.DeltaValue(delta))
    ensures Anthropic.MessageFrame(Anthropic.BlockStop(index)) == Stopped(index)
  {
    hide Anthropic.BlockValue, Anthropic.DeltaValue;
  }

  lemma AnthropicMiddle(t: Said)
    ensures Anthropic.Frames(AnthropicBlockMessages(t)) == AnthropicBlocks(t)
  {
    hide Anthropic.MessageFrame, Numbered, Stopped;
    BlockFrames(0, Anthropic.ThinkingBlock, Anthropic.ThinkingPiece(t.thought));
    BlockFrames(1, Anthropic.TextBlock, Anthropic.TextPiece(t.text));
    BlockFrames(2, Anthropic.ToolBlock(t.id, t.name), Anthropic.JsonPiece(t.first));
    BlockFrames(2, Anthropic.ToolBlock(t.id, t.name), Anthropic.JsonPiece(t.second));
  }

  /** The whole turn as an Anthropic client gets it. */
  lemma AnAnthropicTurn(t: Said)
    ensures Anthropic.Frames(Anthropic.EncodedAll(Anthropic.FRESH_EMIT, Events(t)).1) ==
            [AnthropicOpening(t)] + AnthropicBlocks(t) + AnthropicClosing(t)
  {
    hide Anthropic.MessageFrame, Anthropic.EncodedAll, AnthropicBlockMessages, AnthropicClosingMessages, AnthropicBlocks,
         AnthropicOpening, AnthropicClosing, Events;
    AnthropicTurn(t);
    AnthropicEnds(t);
    AnthropicMiddle(t);
    MapSeqOne(Anthropic.MessageFrame, Anthropic.StartMessage(t.model));
    MapSeqConcat(Anthropic.MessageFrame, [Anthropic.StartMessage(t.model)], AnthropicBlockMessages(t));
    MapSeqConcat(Anthropic.MessageFrame, [Anthropic.StartMessage(t.model)] + AnthropicBlockMessages(t), AnthropicClosingMessages(t));
  }

  // ---------------------------------------------------------------------
  // Gemini
  // ---------------------------------------------------------------------

  function Candidate(parts: seq<Value>): map<string, Value> {
    map["content" := Obj(map["role" := Str("model"), "parts" := Arr(parts)]), "index" := Int(0)]
  }

  function Chunk(t: Said, part: Value): Frame {
    Frame("", Obj(map["candidates" := Arr([Obj(Candidate([part]))]), "modelVersion" := Str(t.model)]))
  }

  /** The text; the call, complete; and the end with the counts. The thought is not told. */
  function GeminiFrames(c: Codec, t: Said): seq<Frame> {
    [Chunk(t, Obj(map["text" := Str(t.text)])),
     Chunk(t, Obj(map["functionCall" := Obj(map[
       "name" := Str(t.name), "args" := c.parse(t.first + t.second).GetOr(Obj(map[]))])])),
     Frame("", Obj(map[
       "candidates" := Arr([Obj(Candidate([])["finishReason" := Str(if t.stop == MaxTokens then "MAX_TOKENS" else "STOP")])]),
       "usageMetadata" := Obj(map[
         "promptTokenCount" := Int(t.usage.input), "candidatesTokenCount" := Int(t.usage.output),
         "totalTokenCount" := Int((t.usage.input + t.usage.output) % 4294967296)]),
       "modelVersion" := Str(t.model)]))]
  }

  /** One more event, and the frames it adds. */
  lemma GeminiStep(c: Codec, events: seq<StreamEvent>, k: nat, st: Gemini.Emit, all: seq<Frame>, i: nat, j: nat, st': Gemini.Emit)
    requires k < |events| && i <= j <= |all|
    requires Gemini.EncodedAll(c, Gemini.FRESH_EMIT, events[..k]) == (st, all[..i])
    requires Gemini.Encoded(c, st, events[k]) == (st', all[i..j])
    ensures Gemini.EncodedAll(c, Gemini.FRESH_EMIT, events[..k + 1]) == (st', all[..j])
  {
    hide Gemini.Encoded;
    assert events[..k + 1][..k] == events[..k];
    assert all[..i] + all[i..j] == all[..j];
  }

  lemma NothingSent(c: Codec, events: seq<StreamEvent>, all: seq<Frame>)
    ensures Gemini.EncodedAll(c, Gemini.FRESH_EMIT, events[..0]) == (Gemini.FRESH_EMIT, all[..0])
  {
  }

  lemma EmptyPieces(first: string, second: string)
    ensures ("" + first) + second == first + second
  {
  }

  lemma GeminiBody(c: Codec, t: Said)
    ensures Gemini.EncodedAll(c, Gemini.FRESH_EMIT, Events(t)[..7]) ==
            (Gemini.Emit(t.model, Some(Merge(NO_USAGE, t.usage)), Some((t.name, t.first + t.second))), GeminiFrames(c, t)[..1])
  {
    hide Gemini.EncodedAll, Merge;
    var events, all := Events(t), GeminiFrames(c, t);
    var st := Gemini.Emit(t.model, None, None);
    NothingSent(c, events, all);
    assert all[0..0] == [] && all[1..1] == [];
    GeminiStep(c, events, 0, Gemini.FRESH_EMIT, all, 0, 0, st);
    GeminiStep(c, events, 1, st, all, 0, 0, st);
    assert all[0..1] == [Gemini.PartChunk(t.model, Gemini.TextPart(t.text))];
    GeminiStep(c, events, 2, st, all, 0, 1, st);
    GeminiStep(c, events, 3, st, all, 1, 1, st.(pending := Some((t.name, ""))));
    GeminiStep(c, events, 4, st.(pending := Some((t.name, ""))), all, 1, 1, st.(pending := Some((t.name, "" + t.first))));
    EmptyPieces(t.first, t.second);
    GeminiStep(c, events, 5, st.(pending := Some((t.name, "" + t.first))), all, 1, 1,
               st.(pending := Some((t.name, t.first + t.second))));
    GeminiStep(c, events, 6, st.(pending := Some((t.name, t.first + t.second))), all, 1, 1,
               st.(usage := Some(Merge(NO_USAGE, t.usage)), pending := Some((t.name, t.first + t.second))));
  }

  /** The whole turn as a Gemini client gets it. */
  lemma AGeminiTurn(c: Codec, t: Said)
    ensures Gemini.EncodedAll(c, Gemini.FRESH_EMIT, Events(t)).1 == GeminiFrames(c, t)
  {
    hide Gemini.EncodedAll;
    var events, all := Events(t), GeminiFrames(c, t);
    GeminiBody(c, t);
    assert Merge(NO_USAGE, t.usage) == t.usage;
    var st := Gemini.Emit(t.model, Some(t.usage), Some((t.name, t.first + t.second)));
    assert Gemini.Encoded(c, st, events[7]).1 == all[1..3];
    GeminiStep(c, events, 7, st, all, 1, 3, st.(pending := None));
    assert events[..8] == events && all[..3] == all;
  }

  /** A stream that gives text before any start: the start is made up, of a nameless model. */
  lemma WithoutAStart(c: Codec, text: string)
    ensures Anthropic.EncodedAll(Anthropic.FRESH_EMIT, [TextDelta(text)]).1 ==
            [Anthropic.StartMessage(""), Anthropic.BlockStart(0, Anthropic.TextBlock), Anthropic.BlockDelta(0, Anthropic.TextPiece(text))]
    ensures Gemini.EncodedAll(c, Gemini.FRESH_EMIT, [TextDelta(text)]).1 ==
            [Frame("", Obj(map["candidates" := Arr([Obj(Candidate([Obj(map["text" := Str(text)])]))]), "modelVersion" := Str("")]))]
  {
    var events := [TextDelta(text)];
    assert events[..0] == [];
    var start, open, piece :=
      Anthropic.StartMessage(""), Anthropic.BlockStart(0, Anthropic.TextBlock), Anthropic.BlockDelta(0, Anthropic.TextPiece(text));
    assert [] + ([start] + [] + [open] + [piece]) == [start, open, piece];
  }

  // ---------------------------------------------------------------------
  // What the turn comes to
  // ---------------------------------------------------------------------

  /** Thought, text and calls, in that order; calls turn a plain end into a tool-use stop, and a
      call's pieces together are parsed, to the empty object where they do not parse. */
  function Whole(c: Codec, t: Said, id: string): ChatResponse {
    ChatResponse(
      id, t.model,
      (if t.thought == "" then [] else [Thinking(t.thought, None)]) + (if t.text == "" then [] else [Text(t.text)]) +
      [ToolCall(t.id, t.name, if Blank(t.first + t.second) then Obj(map[]) else c.parse(t.first + t.second).GetOr(Obj(map[])))],
      if t.stop == EndTurn then ToolUse else t.stop, t.usage, None, None)
  }

  lemma FoldStep(events: seq<StreamEvent>, k: nat, a: Fold)
    requires k < |events| && PushedAll(EMPTY, events[..k]) == a
    ensures PushedAll(EMPTY, events[..k + 1]) == Pushed(a, events[k])
  {
    assert events[..k + 1][..k] == events[..k];
  }

  lemma FoldSaid(t: Said)
    ensures PushedAll(EMPTY, Events(t)[..4]) ==
            Fold(t.model, t.text, t.thought, [PartialTool(t.id, t.name, "")], NO_USAGE, None)
  {
    var events := Events(t);
    assert PushedAll(EMPTY, events[..0]) == EMPTY;
    hide PushedAll, Merge;
    FoldStep(events, 0, EMPTY);
    FoldStep(events, 1, EMPTY.(model := t.model));
    assert "" + t.thought == t.thought && "" + t.text == t.text;
    FoldStep(events, 2, EMPTY.(model := t.model, thinking := t.thought));
    FoldStep(events, 3, EMPTY.(model := t.model, thinking := t.thought, text := t.text));
  }

  lemma OneMorePiece(call: PartialTool, more: string)
    ensures AppendJson([call], more) == [call.(json := call.json + more)]
  {
  }

  lemma FoldIs(t: Said)
    ensures PushedAll(EMPTY, Events(t)) ==
            Fold(t.model, t.text, t.thought, [PartialTool(t.id, t.name, t.first + t.second)], t.usage, Some(t.stop))
  {
    hide PushedAll, AppendJson, Merge;
    var events, call := Events(t), PartialTool(t.id, t.name, "");
    var a := Fold(t.model, t.text, t.thought, [call], NO_USAGE, None);
    FoldSaid(t);
    OneMorePiece(call, t.first);
    EmptyPieces(t.first, t.second);
    assert "" + t.first == t.first;
    FoldStep(events, 4, a);
    OneMorePiece(call.(json := t.first), t.second);
    FoldStep(events, 5, a.(tools := [call.(json := t.first)]));
    NothingMerged(t.usage);
    FoldStep(events, 6, a.(tools := [call.(json := t.first + t.second)]));
    FoldStep(events, 7, a.(tools := [call.(json := t.first + t.second)], usage := t.usage));
    assert events[..8] == events;
  }

  lemma NothingMerged(u: Usage)
    ensures Merge(NO_USAGE, u) == u
  {
  }

  lemma OneCall(c: Codec, call: PartialTool)
    ensures ToolBlocks(c, [call]) == [ToolBlock(c, call)]
  {
    assert [call][..0] == [];
  }

  /** The response the turn's events are gathered into. */
  lemma ATurnMeans(c: Codec, t: Said, id: string)
    ensures Meaning(c, Events(t), id) == Whole(c, t, id)
  {
    hide PushedAll, Events, ToolBlocks;
    FoldIs(t);
    OneCall(c, PartialTool(t.id, t.name, t.first + t.second));
  }

  /** A response of one thought, one text and one call, expanded into events. */
  lemma AResponseExpands(c: Codec, t: Said, signature: Option<string>, input: Value, r: ChatResponse)
    requires r.model == t.model && r.usage == t.usage && r.stop == t.stop
    requires r.content == [Thinking(t.thought, signature), Text(t.text), ToolCall(t.id, t.name, input)]
    ensures ResponseEvents(c, r) ==
            [MessageStart(t.model), ThinkingDelta(t.thought), TextDelta(t.text), ToolUseStart(t.id, t.name),
             ToolUseDelta(c.show(input)), UsageDelta(t.usage), Done(t.stop)]
  {
    var x, y := [Thinking(t.thought, signature)], [Thinking(t.thought, signature), Text(t.text)];
    assert r.content[..2] == y && y[..1] == x && x[..0] == [];
    assert ContentEvents(c, x) == [ThinkingDelta(t.thought)];
    assert ContentEvents(c, y) == [ThinkingDelta(t.thought), TextDelta(t.text)];
  }
}
