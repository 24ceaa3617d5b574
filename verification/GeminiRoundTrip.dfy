/**
 A turn sent to a Gemini client and read back keeps its meaning: the text, the
 tool calls with their parsed inputs in order, the model and the token totals,
 although text overtakes the tool calls the encoder holds back.
 */
module GeminiRoundTrip {
  import opened Prelude
  import opened Json
  import opened Ir
  import opened Aggregate
  import opened Sse
  import opened Gemini

  /** What Gemini can say of a response: no thinking, names in place of call ids,
      input and output tokens only, and its two finish reasons. */
  function ViewBlock(b: ContentBlock): seq<ContentBlock> {
    match b
    case Thinking(_, _) => []
    case ToolCall(_, name, input) => [ToolCall(name, name, input)]
    case _ => [b]
  }

  function ViewBlocks(content: seq<ContentBlock>): seq<ContentBlock> {
    if content == [] then []
    else ViewBlocks(content[..|content| - 1]) + ViewBlock(content[|content| - 1])
  }

  lemma ViewSnoc(content: seq<ContentBlock>, b: ContentBlock)
    ensures ViewBlocks(content + [b]) == ViewBlocks(content) + ViewBlock(b)
  {
    assert (content + [b])[..|content|] == content;
  }

  function ViewStop(r: ChatResponse): StopReason {
    if r.stop == MaxTokens then MaxTokens
    else if exists b :: b in r.content && b.ToolCall? then ToolUse
    else EndTurn
  }

  function View(r: ChatResponse): ChatResponse {
    r.(content := ViewBlocks(r.content), stop := ViewStop(r),
       usage := Tokens(r.usage.input, r.usage.output))
  }

  /** The text a fresh encoder writes for the events. */
  function Encoding(c: Codec, events: seq<StreamEvent>): string {
    Rendered(c, EncodedAll(c, FRESH_EMIT, events).1)
  }

  /** The events a fresh decoder reads from the whole text. */
  function Decoding(c: Codec, text: string): seq<StreamEvent> {
    DecodeLines(LineDecoder(c), FRESH_SSE, AllLines(text)).1
  }

  // ---------------------------------------------------------------------
  // Reading each kind of chunk
  // ---------------------------------------------------------------------

  function Opening(d: SseView, model: string): seq<StreamEvent> {
    if d.started then [] else [MessageStart(model)]
  }

  lemma OnePart(c: Codec, part: Value)
    ensures PartsEvents(c, [part]) == PartEvents(c, part)
  {
    assert [part][..0] == [];
    assert [] + PartEvents(c, part) == PartEvents(c, part);
  }

  lemma ReadPartChunk(c: Codec, d: SseView, model: string, part: Value)
    ensures DecodedValue(c, d, PartChunk(model, part).data) ==
            (SseView(true, d.toolOpen || IsCall(part)), Opening(d, model) + PartEvents(c, part))
  {
    var v := PartChunk(model, part).data;
    var candidate := Obj(Candidate([part]));
    assert FirstCandidate(v) == Some(candidate);
    assert PartsOf(candidate) == [part];
    assert StrOrEmpty(v, "modelVersion") == model;
    assert OptStr(candidate, "finishReason") == None;
    OnePart(c, part);
    var events := Opening(d, model) + PartEvents(c, part);
    assert events + [] == events;
    assert AnyCall([part]) == IsCall(part);
  }

  lemma FinishChunkFields(model: string, stop: StopReason, u: Usage) returns (candidate: Value)
    ensures var v := FinishChunk(model, stop, u).data;
            && FirstCandidate(v) == Some(candidate)
            && StrOrEmpty(v, "modelVersion") == model
            && GetOrNull(v, "usageMetadata") == UsageValue(u)
    ensures PartsOf(candidate) == []
    ensures OptStr(candidate, "finishReason") == Some(FinishText(stop))
    ensures UsageValue(u) != Null && UsageOf(UsageValue(u)) == Tokens(u.input, u.output)
  {
    candidate := Obj(Candidate([])["finishReason" := Str(FinishText(stop))]);
    assert candidate.fields["content"] == Obj(map["role" := Str("model"), "parts" := Arr([])]);
  }

  lemma ReadFinishChunk(c: Codec, d: SseView, model: string, stop: StopReason, u: Usage)
    ensures DecodedValue(c, d, FinishChunk(model, stop, u).data) ==
            (SseView(true, d.toolOpen),
             Opening(d, model) + [UsageDelta(Tokens(u.input, u.output)),
                                  Done(StopOfFinish(FinishText(stop), d.toolOpen))])
  {
    hide FinishChunk, UsageValue, UsageOf, FirstCandidate, PartsOf, FinishText, StopOfFinish;
    var candidate := FinishChunkFields(model, stop, u);
    var v := FinishChunk(model, stop, u).data;
    assert StrOrEmpty(candidate, "finishReason") == FinishText(stop);
    var usage, done := UsageDelta(Tokens(u.input, u.output)), Done(StopOfFinish(FinishText(stop), d.toolOpen));
    assert FinishEvents(v, candidate, d.toolOpen) == [usage] + [done] == [usage, done];
    assert PartsEvents(c, []) == [] && !AnyCall([]);
    assert Opening(d, model) + [] == Opening(d, model);
  }

  lemma ReadCallPart(c: Codec, name: string, args: Value)
    ensures IsCall(CallPart(name, args))
    ensures PartEvents(c, CallPart(name, args)) == [ToolUseStart(name, name), ToolUseDelta(c.show(args))]
  {
  }

  // ---------------------------------------------------------------------
  // One event at a time
  // ---------------------------------------------------------------------

  function SentTool(c: Codec, t: PartialTool): PartialTool {
    PartialTool(t.name, t.name, c.show(ParseOrEmpty(c, t.json)))
  }

  function SentTools(c: Codec, tools: seq<PartialTool>): (sent: seq<PartialTool>)
    ensures |sent| == |tools|
  {
    if tools == [] then []
    else SentTools(c, tools[..|tools| - 1]) + [SentTool(c, tools[|tools| - 1])]
  }

  /** The fold `a` of the events so far, the encoder `st` they led to, the decoder
      `d` that has read its output, and the fold `b` of what was read: everything
      has arrived but the last tool call, which the encoder holds. */
  ghost predicate Tracks(c: Codec, model: string, a: Fold, st: Emit, d: SseView, b: Fold) {
    && a.model == model && a.stop == None
    && st.model == model && st.usage.GetOr(NO_USAGE) == a.usage
    && b == Fold(if d.started then model else "", a.text, "", b.tools, NO_USAGE, None)
    && (d.toolOpen <==> b.tools != [])
    && (if a.tools == [] then st.pending == None && b.tools == []
        else
          var n := |a.tools| - 1;
          st.pending == Some((a.tools[n].name, a.tools[n].json)) && b.tools == SentTools(c, a.tools[..n]))
  }

  /** A reader with fold `b` takes in frames. */
  function Received(c: Codec, d: SseView, b: Fold, frames: seq<Frame>): (SseView, Fold) {
    var (d', events) := DecodeFrames(ValueDecoder(c), d, frames);
    (d', PushedAll(b, events))
  }

  lemma ReceivedConcat(c: Codec, d: SseView, b: Fold, xs: seq<Frame>, ys: seq<Frame>)
    ensures var (d1, b1) := Received(c, d, b, xs);
            Received(c, d, b, xs + ys) == Received(c, d1, b1, ys)
  {
    var (d1, first) := DecodeFrames(ValueDecoder(c), d, xs);
    DecodeFramesConcat(ValueDecoder(c), d, xs, ys);
    PushedAllConcat(b, first, DecodeFrames(ValueDecoder(c), d1, ys).1);
  }

  lemma OneFrame(c: Codec, d: SseView, f: Frame)
    ensures DecodeFrames(ValueDecoder(c), d, [f]) == DecodedValue(c, d, f.data)
  {
    assert [f][1..] == [];
    var events := DecodedValue(c, d, f.data).1;
    assert events + [] == events;
  }

  lemma ReceivedOne(c: Codec, d: SseView, b: Fold, f: Frame)
    ensures Received(c, d, b, [f]) == (DecodedValue(c, d, f.data).0, PushedAll(b, DecodedValue(c, d, f.data).1))
  {
    OneFrame(c, d, f);
  }

  /** The fold of an opening, sent once, is the model. */
  lemma FoldOpening(model: string, d: SseView, b: Fold)
    requires b.model == if d.started then model else ""
    ensures PushedAll(b, Opening(d, model)) == b.(model := model)
  {
    PushedOne(b, MessageStart(model));
  }

  /** A part arrives as its events, after an opening. */
  lemma ReceivePart(c: Codec, model: string, d: SseView, b: Fold, part: Value)
    requires b.model == if d.started then model else ""
    ensures Received(c, d, b, [PartChunk(model, part)]) ==
            (SseView(true, d.toolOpen || IsCall(part)), PushedAll(b.(model := model), PartEvents(c, part)))
  {
    ReceivedOne(c, d, b, PartChunk(model, part));
    ReadPartChunk(c, d, model, part);
    FoldOpening(model, d, b);
    PushedAllConcat(b, Opening(d, model), PartEvents(c, part));
  }

  lemma SendText(c: Codec, model: string, a: Fold, st: Emit, d: SseView, b: Fold, text: string)
    requires Tracks(c, model, a, st, d, b)
    ensures var (d', b') := Received(c, d, b, [PartChunk(model, TextPart(text))]);
            Tracks(c, model, Pushed(a, TextDelta(text)), st, d', b')
  {
    ReceivePart(c, model, d, b, TextPart(text));
    assert PartEvents(c, TextPart(text)) == [TextDelta(text)];
    PushedOne(b.(model := model), TextDelta(text));
  }

  /** Flushing the held call delivers it: the reader then has every tool call. */
  lemma SendCall(c: Codec, model: string, a: Fold, st: Emit, d: SseView, b: Fold)
    requires Tracks(c, model, a, st, d, b)
    ensures var (st', frames) := Flushed(c, st);
            var (d', b') := Received(c, d, b, frames);
            && st' == st.(pending := None)
            && b' == Fold(if d'.started then model else "", a.text, "", SentTools(c, a.tools), NO_USAGE, None)
            && (d'.toolOpen <==> a.tools != [])
  {
    if a.tools != [] {
      var t := a.tools[|a.tools| - 1];
      var args := ParseOrEmpty(c, t.json);
      ReceivePart(c, model, d, b, CallPart(t.name, args));
      ReadCallPart(c, t.name, args);
      FoldToolBlock(c, b.(model := model), ToolCall(t.name, t.name, args));
    }
  }

  /** A new call: the one before it goes out, and the new one is held. */
  lemma TrackStart(c: Codec, model: string, a: Fold, st: Emit, d: SseView, b: Fold, id: string, name: string)
    requires Tracks(c, model, a, st, d, b)
    ensures var (st', frames) := Encoded(c, st, ToolUseStart(id, name));
            var (d', b') := Received(c, d, b, frames);
            Tracks(c, model, Pushed(a, ToolUseStart(id, name)), st', d', b')
  {
    hide Received, Flushed;
    SendCall(c, model, a, st, d, b);
    assert Pushed(a, ToolUseStart(id, name)).tools[..|a.tools|] == a.tools;
  }

  lemma TrackEvent(c: Codec, model: string, a: Fold, st: Emit, d: SseView, b: Fold, e: StreamEvent)
    requires Tracks(c, model, a, st, d, b)
    requires IsBody(e)
    ensures var (st', frames) := Encoded(c, st, e);
            var (d', b') := Received(c, d, b, frames);
            Tracks(c, model, Pushed(a, e), st', d', b')
  {
    hide DecodedValue, PartChunk, Flushed;
    match e
    case TextDelta(text) => SendText(c, model, a, st, d, b, text);
    case ToolUseStart(id, name) => TrackStart(c, model, a, st, d, b, id, name);
    case ToolUseDelta(more) =>
      if a.tools != [] {
        assert Pushed(a, e).tools[..|a.tools| - 1] == a.tools[..|a.tools| - 1];
      }
    case _ =>
  }

  lemma TrackOpening(c: Codec, model: string)
    ensures var events := [MessageStart(model)];
            var (st, frames) := EncodedAll(c, FRESH_EMIT, events);
            var (d, b) := Received(c, FRESH_SSE, EMPTY, frames);
            Tracks(c, model, PushedAll(EMPTY, events), st, d, b)
  {
    assert [MessageStart(model)][..0] == [];
    PushedOne(EMPTY, MessageStart(model));
  }

  /** After any opened prefix of a turn, encoder and decoder are in step. */
  lemma {:induction false} TrackPrefix(c: Codec, model: string, body: seq<StreamEvent>)
    requires forall i :: 0 <= i < |body| ==> IsBody(body[i])
    ensures var events := [MessageStart(model)] + body;
            var (st, frames) := EncodedAll(c, FRESH_EMIT, events);
            var (d, b) := Received(c, FRESH_SSE, EMPTY, frames);
            Tracks(c, model, PushedAll(EMPTY, events), st, d, b)
    decreases |body|
  {
    hide Tracks, Received, Encoded, Pushed;
    var events := [MessageStart(model)] + body;
    if body == [] {
      assert events == [MessageStart(model)];
      TrackOpening(c, model);
    } else {
      var n := |body| - 1;
      TrackPrefix(c, model, body[..n]);
      var init := [MessageStart(model)] + body[..n];
      assert events[..|events| - 1] == init;
      var (st, before) := EncodedAll(c, FRESH_EMIT, init);
      var (d, b) := Received(c, FRESH_SSE, EMPTY, before);
      TrackEvent(c, model, PushedAll(EMPTY, init), st, d, b, body[n]);
      ReceivedConcat(c, FRESH_SSE, EMPTY, before, Encoded(c, st, body[n]).1);
    }
  }

  // ---------------------------------------------------------------------
  // The whole turn
  // ---------------------------------------------------------------------

  /** The decoder reads the printed payloads and skips the other lines. */
  lemma DecoderReadsData(c: Codec)
    requires Lawful(c)
    ensures ReadsData(c, LineDecoder(c), ValueDecoder(c))
  {
  }

  lemma {:induction false} FramesHaveNoEvent(c: Codec, st: Emit, events: seq<StreamEvent>)
    ensures forall i :: 0 <= i < |EncodedAll(c, st, events).1| ==> EncodedAll(c, st, events).1[i].event == ""
  {
    if events != [] {
      FramesHaveNoEvent(c, st, events[..|events| - 1]);
    }
  }

  /** Text and frames carry the same events. */
  lemma DecodingOfEncoding(c: Codec, events: seq<StreamEvent>)
    requires Lawful(c)
    ensures Decoding(c, Encoding(c, events)) ==
            DecodeFrames(ValueDecoder(c), FRESH_SSE, EncodedAll(c, FRESH_EMIT, events).1).1
  {
    DecoderReadsData(c);
    FramesHaveNoEvent(c, FRESH_EMIT, events);
    DecodeRendered(c, LineDecoder(c), ValueDecoder(c), FRESH_SSE, EncodedAll(c, FRESH_EMIT, events).1);
  }

  function SentStop(stop: StopReason, hadTools: bool): StopReason {
    if stop == MaxTokens then MaxTokens else if hadTools then ToolUse else EndTurn
  }

  /** The fold of what a reader gets, from the fold of what was sent. */
  function ReadFold(c: Codec, a: Fold): Fold {
    Fold(a.model, a.text, "", SentTools(c, a.tools), Tokens(a.usage.input, a.usage.output),
         Some(SentStop(a.stop.GetOr(EndTurn), a.tools != [])))
  }

  lemma FinishSurvives(stop: StopReason, hadTools: bool)
    ensures StopOfFinish(FinishText(stop), hadTools) == SentStop(stop, hadTools)
  {
  }

  function Closed(model: string, d: SseView, b: Fold, stop: StopReason, u: Usage): Fold {
    b.(model := model, usage := Tokens(u.input, u.output), stop := Some(SentStop(stop, d.toolOpen)))
  }

  lemma SendLast(c: Codec, model: string, d: SseView, b: Fold, stop: StopReason, u: Usage)
    requires b.model == (if d.started then model else "") && b.usage == NO_USAGE
    ensures PushedAll(b, DecodedValue(c, d, FinishChunk(model, stop, u).data).1) == Closed(model, d, b, stop, u)
  {
    ReadFinishChunk(c, d, model, stop, u);
    FinishSurvives(stop, d.toolOpen);
    FoldOpening(model, d, b);
    var small, end := Tokens(u.input, u.output), SentStop(stop, d.toolOpen);
    PushedAllConcat(b, Opening(d, model), [UsageDelta(small), Done(end)]);
    FoldClosing(b.(model := model), small, end);
  }

  /** One more frame after others. */
  lemma ReceivedSnoc(c: Codec, d: SseView, b: Fold, xs: seq<Frame>, f: Frame)
    ensures var (d1, b1) := Received(c, d, b, xs);
            Received(c, d, b, xs + [f]).1 == PushedAll(b1, DecodedValue(c, d1, f.data).1)
  {
    var (d1, b1) := Received(c, d, b, xs);
    ReceivedConcat(c, d, b, xs, [f]);
    ReceivedOne(c, d1, b1, f);
  }

  lemma EncodedDone(c: Codec, st: Emit, stop: StopReason)
    ensures Encoded(c, st, Done(stop)).1 == Flushed(c, st).1 + [FinishChunk(st.model, stop, st.usage.GetOr(NO_USAGE))]
  {
  }

  /** The closing event delivers the held call, the totals and the stop reason. */
  lemma SendFinish(c: Codec, model: string, a: Fold, st: Emit, d: SseView, b: Fold, stop: StopReason)
    requires Tracks(c, model, a, st, d, b)
    ensures Received(c, d, b, Encoded(c, st, Done(stop)).1).1 == ReadFold(c, Pushed(a, Done(stop)))
  {
    hide FinishChunk, DecodedValue, Flushed, Encoded;
    SendCall(c, model, a, st, d, b);
    EncodedDone(c, st, stop);
    var (d1, b1) := Received(c, d, b, Flushed(c, st).1);
    var u := st.usage.GetOr(NO_USAGE);
    ReceivedSnoc(c, d, b, Flushed(c, st).1, FinishChunk(st.model, stop, u));
    SendLast(c, st.model, d1, b1, stop, u);
  }

  lemma ReadTurn(c: Codec, model: string, body: seq<StreamEvent>, stop: StopReason)
    requires forall i :: 0 <= i < |body| ==> IsBody(body[i])
    ensures var events := [MessageStart(model)] + body + [Done(stop)];
            Received(c, FRESH_SSE, EMPTY, EncodedAll(c, FRESH_EMIT, events).1).1
            == ReadFold(c, PushedAll(EMPTY, events))
  {
    var prefix := [MessageStart(model)] + body;
    var events := prefix + [Done(stop)];
    assert events[..|events| - 1] == prefix;
    TrackPrefix(c, model, body);
    var (st, before) := EncodedAll(c, FRESH_EMIT, prefix);
    var (d, b) := Received(c, FRESH_SSE, EMPTY, before);
    SendFinish(c, model, PushedAll(EMPTY, prefix), st, d, b, stop);
    ReceivedConcat(c, FRESH_SSE, EMPTY, before, Encoded(c, st, Done(stop)).1);
  }

  lemma {:induction false} ViewConcat(xs: seq<ContentBlock>, ys: seq<ContentBlock>)
    ensures ViewBlocks(xs + ys) == ViewBlocks(xs) + ViewBlocks(ys)
  {
    if ys == [] {
      assert xs + ys == xs && ViewBlocks(xs) + [] == ViewBlocks(xs);
    } else {
      var n := |ys| - 1;
      hide ViewBlock;
      ViewConcat(xs, ys[..n]);
      assert (xs + ys)[..|xs + ys| - 1] == xs + ys[..n];
      ConcatAssoc(ViewBlocks(xs), ViewBlocks(ys[..n]), ViewBlock(ys[n]));
    }
  }

  lemma {:induction false} ViewOfTools(c: Codec, tools: seq<PartialTool>)
    requires Lawful(c)
    ensures ViewBlocks(ToolBlocks(c, tools)) == ToolBlocks(c, SentTools(c, tools))
  {
    if tools != [] {
      var n := |tools| - 1;
      ViewOfTools(c, tools[..n]);
      ViewSnoc(ToolBlocks(c, tools[..n]), ToolBlock(c, tools[n]));
      ToolArrives(c, tools[n]);
      assert SentTools(c, tools)[..n] == SentTools(c, tools[..n]);
    }
  }

  /** A call's input means the same after being completed, printed and parsed. */
  lemma ToolArrives(c: Codec, t: PartialTool)
    requires Lawful(c)
    ensures ToolBlock(c, SentTool(c, t)) == ToolCall(t.name, t.name, ToolInput(c, t.json))
  {
    PrintedIsNotBlank(c, ParseOrEmpty(c, t.json));
  }

  lemma ViewOfFold(c: Codec, a: Fold, id: string)
    requires Lawful(c) && a.stop.Some?
    ensures Response(c, ReadFold(c, a), id) == View(Response(c, a, id))
  {
    hide ToolBlocks, SentTools, ViewBlocks;
    var head := ThinkingBlocks(a.thinking) + TextBlocks(a.text);
    ViewConcat(head, ToolBlocks(c, a.tools));
    ViewOfTools(c, a.tools);
    ViewOfHead(a.thinking, a.text);
    assert ThinkingBlocks("") + TextBlocks(a.text) == TextBlocks(a.text);
    HasToolBlock(c, a, id);
  }

  lemma ViewOfHead(thought: string, text: string)
    ensures ViewBlocks(ThinkingBlocks(thought) + TextBlocks(text)) == TextBlocks(text)
  {
    if thought != "" {
      ViewSnoc([], Thinking(thought, None));
      assert [] + [Thinking(thought, None)] == [Thinking(thought, None)];
    }
    assert ViewBlocks(ThinkingBlocks(thought)) == [];
    if text == "" {
      assert ThinkingBlocks(thought) + TextBlocks(text) == ThinkingBlocks(thought);
    } else {
      ViewSnoc(ThinkingBlocks(thought), Text(text));
    }
  }

  /** Every turn: what a Gemini client's text means is Gemini's view of the turn. */
  lemma GeminiKeepsMeaning(c: Codec, events: seq<StreamEvent>, id: string)
    requires Lawful(c)
    requires IsTurn(events)
    ensures Meaning(c, Decoding(c, Encoding(c, events)), id) == View(Meaning(c, events, id))
  {
    var model, body, stop := TurnParts(events);
    ReadTurn(c, model, body, stop);
    DecodingOfEncoding(c, events);
    StopOfTurn(events);
    ViewOfFold(c, PushedAll(EMPTY, events), id);
  }

  /** Exactly which stop reasons survive. */
  lemma GeminiStopAgrees(c: Codec, events: seq<StreamEvent>, id: string)
    requires Lawful(c)
    requires IsTurn(events)
    ensures var stop := events[|events| - 1].stop;
            var calledTool := exists e :: e in events && e.ToolUseStart?;
            Meaning(c, Decoding(c, Encoding(c, events)), id).stop == Meaning(c, events, id).stop
            <==> stop == MaxTokens || stop == EndTurn || (stop == ToolUse && calledTool)
  {
    GeminiKeepsMeaning(c, events, id);
    CallsAreTools(events);
    StopOfTurn(events);
    FoldStopAgrees(c, PushedAll(EMPTY, events), id);
  }

  lemma FoldStopAgrees(c: Codec, a: Fold, id: string)
    requires a.stop.Some?
    ensures ViewStop(Response(c, a, id)) == Response(c, a, id).stop
            <==> a.stop.value == MaxTokens || a.stop.value == EndTurn || (a.stop.value == ToolUse && a.tools != [])
  {
    HasToolBlock(c, a, id);
  }

  lemma {:induction false} CallsAreTools(events: seq<StreamEvent>)
    ensures PushedAll(EMPTY, events).tools != [] <==> exists e :: e in events && e.ToolUseStart?
  {
    if events != [] {
      var n := |events| - 1;
      CallsAreTools(events[..n]);
      assert forall e :: e in events <==> e in events[..n] || e == events[n];
    }
  }
}
