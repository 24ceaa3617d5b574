/**
 The test for the end of an answer on the Anthropic surface
 (yb-gateway/src/service.rs): it looks for a marker anywhere in the bytes written.
 */
module EndOfAnswer {
  import opened Prelude
  import opened Search
  import opened Json
  import opened Ir
  import opened Sse
  import opened Anthropic

  const MARKER := "message_stop"

  predicate AnthropicEnds(bytes: string) {
    Contains(bytes, MARKER)
  }

  lemma MarkerIsWord()
    ensures IsWord(MARKER) && '\n' !in MARKER && ' ' !in MARKER
  {
  }

  lemma NotMarker(s: string)
    requires |s| < 12 || 'm' !in s
    ensures !Contains(s, MARKER)
  {
    ContainsNot(s, MARKER);
  }

  // ---------------------------------------------------------------------
  // What each message quotes
  // ---------------------------------------------------------------------

  function PieceText(d: Delta): string {
    match d
    case TextPiece(text) => text
    case ThinkingPiece(text) => text
    case JsonPiece(json) => json
  }

  /** The marker stands in something the message carries from outside. */
  predicate MessageQuotes(m: Message) {
    match m
    case StartMessage(model) => Contains(model, MARKER)
    case BlockStart(_, ToolBlock(id, name)) => Contains(id, MARKER) || Contains(name, MARKER)
    case BlockDelta(_, piece) => Contains(PieceText(piece), MARKER)
    case MessageDelta(stopText, _) => Contains(stopText, MARKER)
    case _ => false
  }

  lemma NameHasMarker(m: Message)
    ensures Contains(EventName(m), MARKER) <==> m.StopMessage?
  {
    var name := EventName(m);
    if m.StopMessage? {
      assert OccursAt(name, MARKER, 0);
    } else {
      forall p: nat | p + |MARKER| <= |name|
        ensures !OccursAt(name, MARKER, p)
      {
        var window := name[p..p + |MARKER|];
        assert window[0] == name[p] && window[10] == name[p + 10];
      }
    }
  }

  lemma BlockMentions(b: Block)
    ensures Mentions(BlockValue(b), MARKER) <==> b.ToolBlock? && (Contains(b.id, MARKER) || Contains(b.name, MARKER))
  {
    hide Contains;
    NotMarker("type");
    NotMarker("text");
    NotMarker("thinking");
    NotMarker("tool_use");
    NotMarker("id");
    NotMarker("name");
    NotMarker("input");
    NotMarker("");
    var v := BlockValue(b);
    match b
    case TextBlock =>
    case ThinkingBlock =>
    case ToolBlock(id, name) =>
      assert v.fields["id"] == Str(id) && v.fields["name"] == Str(name);
      assert !Mentions(EMPTY_OBJECT, MARKER);
      assert Mentions(Str(id), MARKER) == Contains(id, MARKER);
      assert Mentions(Str(name), MARKER) == Contains(name, MARKER);
  }

  lemma PieceMentions(d: Delta)
    ensures Mentions(DeltaValue(d), MARKER) <==> Contains(PieceText(d), MARKER)
  {
    hide Contains;
    NotMarker("type");
    NotMarker("text");
    NotMarker("text_delta");
    NotMarker("thinking");
    NotMarker("thinking_delta");
    NotMarker("partial_json");
    NotMarker("input_json_delta");
    var v := DeltaValue(d);
    assert Mentions(Str(PieceText(d)), MARKER) == Contains(PieceText(d), MARKER);
    match d
    case TextPiece(text) => assert v.fields["text"] == Str(text);
    case ThinkingPiece(text) => assert v.fields["thinking"] == Str(text);
    case JsonPiece(json) => assert v.fields["partial_json"] == Str(json);
  }

  /** A field that holds no marker. */
  ghost predicate Silent(k: string, v: Value) {
    !Contains(k, MARKER) && !Mentions(v, MARKER)
  }

  lemma SilentText(k: string, s: string)
    requires |k| < 12 && |s| < 12
    ensures Silent(k, Str(s))
  {
    NotMarker(k);
    NotMarker(s);
  }

  /** An object whose fields are silent but for one says what that one says. */
  lemma OnlyField(v: Value, key: string)
    requires v.Obj? && key in v.fields && !Contains(key, MARKER)
    requires forall k :: k in v.fields && k != key ==> Silent(k, v.fields[k])
    ensures Mentions(v, MARKER) <==> Mentions(v.fields[key], MARKER)
  {
    hide Contains;
  }

  lemma SilentEmpty()
    ensures Silent("content", Arr([])) && Silent("stop_reason", Null) && Silent("stop_sequence", Null)
  {
    NotMarker("content");
    NotMarker("stop_reason");
    NotMarker("stop_sequence");
  }

  lemma StartMentions(model: string)
    ensures Mentions(StartValue(model), MARKER) <==> Contains(model, MARKER)
  {
    hide Contains, Silent, Mentions;
    SilentText("id", "msg_stream");
    SilentText("type", "message");
    SilentText("role", "assistant");
    SilentEmpty();
    TokensMention();
    NotMarker("model");
    OnlyField(StartValue(model), "model");
    StrMentions(model);
  }

  lemma StrMentions(s: string)
    ensures Mentions(Str(s), MARKER) <==> Contains(s, MARKER)
  {
  }

  lemma TokensMention()
    ensures Silent("usage", Obj(map["input_tokens" := Int(0), "output_tokens" := Int(0)]))
  {
    hide Contains;
    NotMarker("usage");
    NotMarker("input_tokens");
    NotMarker("output_tokens");
  }

  lemma StopMentions(stopText: string)
    ensures Mentions(Obj(map["stop_reason" := Str(stopText), "stop_sequence" := Null]), MARKER) <==> Contains(stopText, MARKER)
  {
    hide Contains, Silent, Mentions;
    SilentEmpty();
    NotMarker("stop_reason");
    OnlyField(Obj(map["stop_reason" := Str(stopText), "stop_sequence" := Null]), "stop_reason");
    StrMentions(stopText);
  }

  lemma OutputMention(tokens: U32)
    ensures Silent("usage", Obj(map["output_tokens" := Int(tokens)]))
  {
    hide Contains;
    NotMarker("usage");
    NotMarker("output_tokens");
    assert Silent("output_tokens", Int(tokens));
    AllSilent(Obj(map["output_tokens" := Int(tokens)]));
  }

  lemma NameIsSilent(m: Message)
    requires !m.StopMessage?
    ensures Silent("type", Str(EventName(m)))
  {
    hide EventName, Contains, Mentions;
    NameHasMarker(m);
    NotMarker("type");
    StrMentions(EventName(m));
  }

  lemma IndexIsSilent(index: nat)
    ensures Silent("index", Int(index))
  {
    NotMarker("index");
  }

  lemma ValueMentions(m: Message)
    ensures Mentions(MessageValue(m), MARKER) <==> m.StopMessage? || MessageQuotes(m)
  {
    hide Contains, BlockValue, DeltaValue, StartValue, Silent, Mentions, EventName;
    var v := MessageValue(m);
    if !m.StopMessage? {
      NameIsSilent(m);
    }
    match m
    case StartMessage(model) =>
      NotMarker("message");
      StartMentions(model);
      OnlyField(v, "message");
    case BlockStart(index, block) =>
      IndexIsSilent(index);
      NotMarker("content_block");
      BlockMentions(block);
      OnlyField(v, "content_block");
    case BlockDelta(index, piece) =>
      IndexIsSilent(index);
      NotMarker("delta");
      PieceMentions(piece);
      OnlyField(v, "delta");
    case BlockStop(index) =>
      IndexIsSilent(index);
      AllSilent(v);
    case MessageDelta(stopText, tokens) =>
      NotMarker("delta");
      StopMentions(stopText);
      OutputMention(tokens);
      OnlyField(v, "delta");
    case StopMessage =>
      NotMarker("type");
      NameHasMarker(m);
      OnlyField(v, "type");
      StrMentions(EventName(m));
  }

  lemma AllSilent(v: Value)
    requires v.Obj? && forall k :: k in v.fields ==> Silent(k, v.fields[k])
    ensures !Mentions(v, MARKER)
  {
    hide Contains;
  }

  // ---------------------------------------------------------------------
  // What the written text contains
  // ---------------------------------------------------------------------

  lemma ContainsLine(line: string, tail: string)
    ensures Contains(Line(line, tail), MARKER) <==> Contains(line, MARKER) || Contains(tail, MARKER)
  {
    hide Contains;
    MarkerIsWord();
    NotMarker("\n");
    ContainsJoined(line, "\n", MARKER);
    ContainsJoined(line + "\n", tail, MARKER);
  }

  lemma ContainsAfter(name: string, s: string)
    requires 0 < |name| < 12 && name[|name| - 1] == ' '
    ensures Contains(name + s, MARKER) <==> Contains(s, MARKER)
  {
    hide Contains;
    MarkerIsWord();
    NotMarker(name);
    ContainsJoined(name, s, MARKER);
  }

  predicate MessageEnds(m: Message) {
    m.StopMessage? || MessageQuotes(m)
  }

  lemma FrameHasMarker(c: Codec, m: Message, tail: string)
    requires Plain(c)
    ensures Contains(FrameText(c, MessageFrame(m), tail), MARKER) <==> MessageEnds(m) || Contains(tail, MARKER)
  {
    hide MessageValue, Contains, Mentions, MessageQuotes;
    var name, payload := EventName(m), c.show(MessageValue(m));
    var body := Line("", tail);
    MarkerIsWord();
    assert Contains(payload, MARKER) <==> Mentions(MessageValue(m), MARKER);
    ValueMentions(m);
    NotMarker("");
    ContainsLine("", tail);
    ContainsLine("data: " + payload, body);
    ContainsLine("event: " + name, Line("data: " + payload, body));
    ContainsAfter("data: ", payload);
    ContainsAfter("event: ", name);
    NameHasMarker(m);
  }

  predicate AnyEnds(messages: seq<Message>) {
    exists m :: m in messages && MessageEnds(m)
  }

  /** Written messages hold the marker if and only if one is the stop message or quotes it. */
  lemma {:induction false} WrittenHasMarker(c: Codec, messages: seq<Message>)
    requires Plain(c)
    ensures Contains(Written(c, messages), MARKER) <==> AnyEnds(messages)
    decreases |messages|
  {
    hide MessageEnds, MessageFrame, Contains;
    if messages == [] {
      NotMarker("");
    } else {
      var rest := messages[1..];
      assert Frames(messages)[1..] == Frames(rest);
      WrittenHasMarker(c, rest);
      FrameHasMarker(c, messages[0], Written(c, rest));
      assert forall m :: m in messages <==> m == messages[0] || m in rest;
    }
  }

  // ---------------------------------------------------------------------
  // What the events say
  // ---------------------------------------------------------------------

  /** A model name, a text, a thought, a call's id or name, or a piece of its input holds the marker. */
  predicate Quotes(e: StreamEvent) {
    match e
    case MessageStart(model) => Contains(model, MARKER)
    case TextDelta(text) => Contains(text, MARKER)
    case ThinkingDelta(text) => Contains(text, MARKER)
    case ToolUseStart(id, name) => Contains(id, MARKER) || Contains(name, MARKER)
    case ToolUseDelta(json) => Contains(json, MARKER)
    case _ => false
  }

  predicate SomeEnds(events: seq<StreamEvent>) {
    exists e :: e in events && (e.Done? || Quotes(e))
  }

  /** Only an opening names a model, and it starts the message. */
  predicate ModelIsSent(st: Emit) {
    st.started || st.model == ""
  }

  lemma AnyEndsConcat(xs: seq<Message>, ys: seq<Message>)
    ensures AnyEnds(xs + ys) <==> AnyEnds(xs) || AnyEnds(ys)
  {
    hide MessageEnds;
  }

  lemma AnyEndsOne(m: Message)
    ensures AnyEnds([m]) <==> MessageEnds(m)
  {
    assert m in [m];
  }

  lemma StartedEnds(st: Emit)
    requires ModelIsSent(st)
    ensures !AnyEnds(Started(st).1) && Started(st).0.started && Started(st).0.open == st.open
  {
    NotMarker("");
    AnyEndsOne(StartMessage(""));
  }

  lemma OpenedEnds(st: Emit, block: Block)
    requires ModelIsSent(st)
    ensures AnyEnds(Opened(st, block).1) <==> block.ToolBlock? && (Contains(block.id, MARKER) || Contains(block.name, MARKER))
    ensures Opened(st, block).0.started
  {
    hide AnyEnds, Contains;
    var (st1, start) := Started(st);
    var (st2, close) := Closed(st1);
    StartedEnds(st);
    AnyEndsOne(BlockStop(st1.nextIndex));
    NoneEnds();
    AnyEndsConcat(start, close);
    AnyEndsConcat(start + close, [BlockStart(st2.nextIndex, block)]);
    AnyEndsOne(BlockStart(st2.nextIndex, block));
  }

  lemma NoneEnds()
    ensures !AnyEnds([])
  {
  }

  lemma DeliveredEnds(st: Emit, piece: Delta)
    requires ModelIsSent(st)
    ensures AnyEnds(Delivered(st, piece).1) <==> Contains(PieceText(piece), MARKER)
    ensures Delivered(st, piece).0.started
  {
    hide AnyEnds, Contains, Opened;
    var (st1, before) := Ensured(st, piece.Kind());
    if st.open == Some(piece.Kind()) {
      StartedEnds(st);
    } else {
      OpenedEnds(st, EmptyBlock(piece.Kind()));
      NotMarker("");
    }
    AnyEndsConcat(before, [BlockDelta(st1.nextIndex, piece)]);
    AnyEndsOne(BlockDelta(st1.nextIndex, piece));
  }

  lemma FinishedEnds(st: Emit, stop: StopReason)
    ensures AnyEnds(Finished(st, stop).1)
  {
    var sent := Finished(st, stop).1;
    assert sent[|sent| - 1] == StopMessage;
    assert StopMessage in sent && MessageEnds(StopMessage);
  }

  lemma EventEnds(st: Emit, e: StreamEvent)
    requires ModelIsSent(st)
    ensures AnyEnds(Encoded(st, e).1) <==> e.Done? || Quotes(e)
    ensures ModelIsSent(Encoded(st, e).0)
  {
    hide AnyEnds, Contains, Delivered, Opened, Finished;
    match e
    case MessageStart(model) => AnyEndsOne(StartMessage(model));
    case TextDelta(text) => DeliveredEnds(st, TextPiece(text));
    case ThinkingDelta(text) => DeliveredEnds(st, ThinkingPiece(text));
    case ToolUseStart(id, name) => OpenedEnds(st, ToolBlock(id, name));
    case ToolUseDelta(json) => DeliveredEnds(st, JsonPiece(json));
    case UsageDelta(_) => NoneEnds();
    case Done(stop) =>
      FinishedEnds(st, stop);
      FinishedIsStarted(st, stop);
  }

  lemma FinishedIsStarted(st: Emit, stop: StopReason)
    ensures Finished(st, stop).0.started
  {
  }

  lemma {:induction false} EventsEnd(st: Emit, events: seq<StreamEvent>)
    requires ModelIsSent(st)
    ensures AnyEnds(EncodedAll(st, events).1) <==> SomeEnds(events)
    ensures ModelIsSent(EncodedAll(st, events).0)
    decreases |events|
  {
    hide AnyEnds, Encoded, Quotes;
    if events == [] {
      NoneEnds();
    } else {
      var n := |events| - 1;
      EventsEnd(st, events[..n]);
      var (st1, before) := EncodedAll(st, events[..n]);
      EventEnds(st1, events[n]);
      AnyEndsConcat(before, Encoded(st1, events[n]).1);
      assert forall e :: e in events <==> e in events[..n] || e == events[n];
    }
  }

  /**
   At any point of a stream, what is written for the next events is taken for the end
   of the answer if and only if one of them closes it or quotes the marker.
   */
  lemma EndsIff(c: Codec, before: seq<StreamEvent>, events: seq<StreamEvent>)
    requires Plain(c)
    ensures var st := EncodedAll(FRESH_EMIT, before).0;
            AnthropicEnds(Written(c, EncodedAll(st, events).1)) <==> SomeEnds(events)
  {
    hide EncodedAll, Contains, AnyEnds, SomeEnds, Plain;
    var st := EncodedAll(FRESH_EMIT, before).0;
    EventsEnd(FRESH_EMIT, before);
    EventsEnd(st, events);
    WrittenHasMarker(c, EncodedAll(st, events).1);
  }

  const QUOTE := "Then comes message_stop, and"

  lemma QuoteQuotes()
    ensures Contains(QUOTE, MARKER)
  {
    assert QUOTE[11..23] == MARKER;
    ContainsAt(QUOTE, MARKER, 11);
  }

  /** Without a closing event, bytes are taken for the end exactly when an event quotes the marker. */
  lemma EndsEarlyIff(c: Codec, before: seq<StreamEvent>, events: seq<StreamEvent>)
    requires Plain(c)
    requires forall e :: e in events ==> !e.Done?
    ensures var st := EncodedAll(FRESH_EMIT, before).0;
            AnthropicEnds(Written(c, EncodedAll(st, events).1)) <==> exists e :: e in events && Quotes(e)
  {
    hide EncodedAll, Written, AnthropicEnds, Quotes, Plain;
    EndsIff(c, before, events);
  }
}
