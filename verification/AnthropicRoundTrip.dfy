/**
 A turn sent to an Anthropic client and read back keeps its meaning exactly
 when every piece of tool input follows its own tool call: a piece that comes
 after text or thinking makes the encoder open a nameless tool call for it.
 */
module AnthropicRoundTrip {
  import opened Prelude
  import opened Json
  import opened Ir
  import opened Aggregate
  import opened Sse
  import opened Anthropic

  /** What the dialect can say: output tokens only, and stop reasons as text. */
  function View(r: ChatResponse): ChatResponse {
    r.(stop := FinalStop(Some(StopFromText(StopText(r.stop))), exists b :: b in r.content && b.ToolCall?),
       usage := Tokens(0, r.usage.output))
  }

  function Encoding(c: Codec, events: seq<StreamEvent>): string {
    Written(c, EncodedAll(FRESH_EMIT, events).1)
  }

  function Decoding(c: Codec, text: string): seq<StreamEvent> {
    DecodeLines(LineDecoder(c), None, AllLines(text)).1
  }

  // ---------------------------------------------------------------------
  // Orphans, and the events the client really receives
  // ---------------------------------------------------------------------

  /** The kind of the last content sent. */
  function LastKind(events: seq<StreamEvent>): Option<BlockKind> {
    if events == [] then None
    else
      match events[|events| - 1]
      case TextDelta(_) => Some(TextKind)
      case ThinkingDelta(_) => Some(ThinkingKind)
      case ToolUseStart(_, _) => Some(ToolKind)
      case ToolUseDelta(_) => Some(ToolKind)
      case Done(_) => None
      case _ => LastKind(events[..|events| - 1])
  }

  /** Tool input that does not directly follow its tool call or its own earlier pieces. */
  predicate IsOrphan(before: seq<StreamEvent>, e: StreamEvent) {
    e.ToolUseDelta? && LastKind(before) != Some(ToolKind)
  }

  predicate NoOrphans(events: seq<StreamEvent>) {
    forall i :: 0 <= i < |events| ==> !IsOrphan(events[..i], events[i])
  }

  function Opener(before: seq<StreamEvent>, e: StreamEvent): seq<StreamEvent> {
    if IsOrphan(before, e) then [ToolUseStart("", "")] else []
  }

  /** Every orphan given the nameless call the encoder opens for it. */
  function Adopted(events: seq<StreamEvent>): seq<StreamEvent> {
    if events == [] then []
    else
      var n := |events| - 1;
      Adopted(events[..n]) + Opener(events[..n], events[n]) + [events[n]]
  }

  lemma NoOrphansStep(events: seq<StreamEvent>)
    requires events != []
    ensures var n := |events| - 1;
            NoOrphans(events) <==> NoOrphans(events[..n]) && !IsOrphan(events[..n], events[n])
  {
    var n := |events| - 1;
    assert forall i :: 0 <= i < n ==> events[..n][..i] == events[..i];
  }

  /** One more event: how many calls each side then has. */
  lemma AdoptedStep(init: seq<StreamEvent>, e: StreamEvent)
    ensures Adopted(init + [e]) == Adopted(init) + Opener(init, e) + [e]
    ensures |PushedAll(EMPTY, Adopted(init + [e])).tools| ==
            |PushedAll(EMPTY, Adopted(init)).tools| + (if IsOrphan(init, e) then 1 else 0) + (if e.ToolUseStart? then 1 else 0)
    ensures |PushedAll(EMPTY, init + [e]).tools| ==
            |PushedAll(EMPTY, init).tools| + if e.ToolUseStart? then 1 else 0
  {
    hide PushedAll, Pushed, IsOrphan;
    assert (init + [e])[..|init|] == init;
    var a, opener := PushedAll(EMPTY, Adopted(init)), Opener(init, e);
    PushedAllConcat(EMPTY, Adopted(init), opener);
    PushedSnoc(EMPTY, Adopted(init) + opener, e);
    PushedSnoc(EMPTY, init, e);
    OpenerFold(init, e, a);
    ToolCount(PushedAll(a, opener), e);
    ToolCount(PushedAll(EMPTY, init), e);
  }

  /** Adoption changes nothing without orphans, and adds a tool call with any. */
  lemma {:induction false} AdoptedTools(events: seq<StreamEvent>)
    ensures NoOrphans(events) ==> Adopted(events) == events
    ensures |PushedAll(EMPTY, Adopted(events)).tools| >= |PushedAll(EMPTY, events).tools|
    ensures !NoOrphans(events) ==> |PushedAll(EMPTY, Adopted(events)).tools| > |PushedAll(EMPTY, events).tools|
    decreases |events|
  {
    hide PushedAll, Adopted, NoOrphans, IsOrphan;
    if events == [] {
      NothingAdopted();
    } else {
      var n := |events| - 1;
      var init, e := events[..n], events[n];
      assert events == init + [e];
      AdoptedTools(init);
      NoOrphansStep(events);
      AdoptedStep(init, e);
      assert Adopted(init) + [] == Adopted(init);
    }
  }

  lemma NothingAdopted()
    ensures Adopted([]) == [] && NoOrphans([])
  {
  }

  lemma ToolCount(a: Fold, e: StreamEvent)
    ensures |Pushed(a, e).tools| == |a.tools| + if e.ToolUseStart? then 1 else 0
  {
  }

  // ---------------------------------------------------------------------
  // Reading each message
  // ---------------------------------------------------------------------

  function DeltaEvent(d: Delta): StreamEvent {
    match d
    case TextPiece(text) => TextDelta(text)
    case ThinkingPiece(text) => ThinkingDelta(text)
    case JsonPiece(json) => ToolUseDelta(json)
  }

  /** What each message tells the reader. */
  function Told(d: SseView, m: Message): (SseView, seq<StreamEvent>) {
    match m
    case StartMessage(model) => (d, [MessageStart(model), UsageDelta(NO_USAGE)])
    case BlockStart(_, ToolBlock(id, name)) => (d, [ToolUseStart(id, name)])
    case BlockStart(_, _) => (d, [])
    case BlockDelta(_, delta) => (d, [DeltaEvent(delta)])
    case BlockStop(_) => (d, [])
    case MessageDelta(text, tokens) => (Some(StopFromText(text)), [UsageDelta(Tokens(0, tokens))])
    case StopMessage => (None, [Done(d.GetOr(EndTurn))])
  }

  lemma ReadStart(model: string)
    ensures StartEvents(MessageValue(StartMessage(model))) == [MessageStart(model), UsageDelta(NO_USAGE)]
  {
    var v := MessageValue(StartMessage(model));
    assert GetOrNull(v, "message") == StartValue(model);
    var u := GetOrNull(StartValue(model), "usage");
    assert u == Obj(map["input_tokens" := Int(0), "output_tokens" := Int(0)]);
    assert UsageOf(u) == NO_USAGE;
    assert StrOrEmpty(StartValue(model), "model") == model;
  }

  lemma ReadBlockStart(index: nat, block: Block)
    ensures BlockStartEvents(MessageValue(BlockStart(index, block))) == Told(None, BlockStart(index, block)).1
  {
    assert GetOrNull(MessageValue(BlockStart(index, block)), "content_block") == BlockValue(block);
  }

  lemma ReadDelta(index: nat, delta: Delta)
    ensures DeltaEvents(MessageValue(BlockDelta(index, delta))) == [DeltaEvent(delta)]
  {
    assert GetOrNull(MessageValue(BlockDelta(index, delta)), "delta") == DeltaValue(delta);
  }

  lemma ReadEnd(text: string, tokens: U32)
    ensures var v := MessageValue(MessageDelta(text, tokens));
            && StopOf(v) == StopFromText(text)
            && Get(v, "usage").Some? && UsageOf(Get(v, "usage").value) == Tokens(0, tokens)
  {
    var v := MessageValue(MessageDelta(text, tokens));
    assert GetOrNull(v, "delta") == Obj(map["stop_reason" := Str(text), "stop_sequence" := Null]);
    assert Get(v, "usage") == Some(Obj(map["output_tokens" := Int(tokens)]));
  }

  lemma ReadMessage(d: SseView, m: Message)
    ensures DecodedValue(d, MessageValue(m)) == Told(d, m)
  {
    assert OptStr(MessageValue(m), "type") == Some(EventName(m));
    match m
    case StartMessage(model) => ReadStart(model);
    case BlockStart(index, block) => ReadBlockStart(index, block);
    case BlockDelta(index, delta) => ReadDelta(index, delta);
    case BlockStop(_) =>
    case MessageDelta(text, tokens) => ReadEnd(text, tokens);
    case StopMessage =>
  }

  function ToldAll(d: SseView, messages: seq<Message>): (SseView, seq<StreamEvent>)
    decreases |messages|
  {
    if messages == [] then (d, [])
    else
      var (d1, first) := Told(d, messages[0]);
      var (d2, others) := ToldAll(d1, messages[1..]);
      (d2, first + others)
  }

  lemma {:induction false} ToldAllConcat(d: SseView, xs: seq<Message>, ys: seq<Message>)
    ensures var (d1, first) := ToldAll(d, xs);
            var (d2, others) := ToldAll(d1, ys);
            ToldAll(d, xs + ys) == (d2, first + others)
    decreases |xs|
  {
    if xs == [] {
      assert xs + ys == ys;
      assert [] + ToldAll(d, ys).1 == ToldAll(d, ys).1;
    } else {
      assert (xs + ys)[1..] == xs[1..] + ys;
      var (d1, first) := Told(d, xs[0]);
      ToldAllConcat(d1, xs[1..], ys);
      var (d2, second) := ToldAll(d1, xs[1..]);
      ConcatAssoc(first, second, ToldAll(d2, ys).1);
    }
  }

  lemma ToldOne(d: SseView, m: Message)
    ensures ToldAll(d, [m]) == Told(d, m)
  {
    assert [m][1..] == [];
    assert Told(d, m).1 + [] == Told(d, m).1;
  }

  lemma {:induction false} ReadMessages(d: SseView, messages: seq<Message>)
    ensures DecodeFrames(ValueDecoder(), d, Frames(messages)) == ToldAll(d, messages)
    decreases |messages|
  {
    if messages != [] {
      assert Frames(messages)[1..] == Frames(messages[1..]);
      ReadMessage(d, messages[0]);
      ReadMessages(Told(d, messages[0]).0, messages[1..]);
    }
  }

  lemma DecodingOfEncoding(c: Codec, events: seq<StreamEvent>)
    requires Lawful(c)
    ensures Decoding(c, Encoding(c, events)) == ToldAll(None, EncodedAll(FRESH_EMIT, events).1).1
  {
    var messages := EncodedAll(FRESH_EMIT, events).1;
    DecoderReadsData(c);
    NamesAreOneLine(messages);
    DecodeRendered(c, LineDecoder(c), ValueDecoder(), None, Frames(messages));
    ReadMessages(None, messages);
  }

  lemma DecoderReadsData(c: Codec)
    requires Lawful(c)
    ensures ReadsData(c, LineDecoder(c), ValueDecoder())
  {
  }

  lemma NameIsOneLine(m: Message)
    ensures '\n' !in EventName(m)
  {
    match m
    case StartMessage(_) =>
    case BlockStart(_, _) =>
    case BlockDelta(_, _) =>
    case BlockStop(_) =>
    case MessageDelta(_, _) =>
    case StopMessage =>
  }

  lemma NamesAreOneLine(messages: seq<Message>)
    ensures forall i :: 0 <= i < |messages| ==> '\n' !in Frames(messages)[i].event
  {
    forall i | 0 <= i < |messages|
      ensures '\n' !in Frames(messages)[i].event
    {
      NameIsOneLine(messages[i]);
    }
  }

  // ---------------------------------------------------------------------
  // One event at a time
  // ---------------------------------------------------------------------

  /** With the message started, opening a block tells the reader of its tool call only. */
  lemma ToldOfOpened(st: Emit, block: Block)
    requires st.started
    ensures ToldAll(None, Opened(st, block).1) ==
            (None, if block.ToolBlock? then [ToolUseStart(block.id, block.name)] else [])
  {
    var (st2, close) := Closed(st);
    var last := BlockStart(st2.nextIndex, block);
    assert Opened(st, block).1 == close + [last];
    ToldOne(None, BlockStop(st.nextIndex));
    ToldOne(None, last);
    ToldAllConcat(None, close, [last]);
    assert [] + Told(None, last).1 == Told(None, last).1;
  }

  lemma ToldOfDelivered(st: Emit, delta: Delta)
    requires st.started
    ensures ToldAll(None, Delivered(st, delta).1) ==
            (None, (if delta.JsonPiece? && st.open != Some(ToolKind) then [ToolUseStart("", "")] else [])
                   + [DeltaEvent(delta)])
  {
    var (st1, before) := Ensured(st, delta.Kind());
    if st.open != Some(delta.Kind()) {
      ToldOfOpened(st, EmptyBlock(delta.Kind()));
    }
    ToldOne(None, BlockDelta(st1.nextIndex, delta));
    ToldAllConcat(None, before, [BlockDelta(st1.nextIndex, delta)]);
  }

  /** What the reader is told of one body event: the event, after the opener of an orphan. */
  lemma ToldOfEvent(st: Emit, before: seq<StreamEvent>, e: StreamEvent)
    requires st.started && st.open == LastKind(before) && IsBody(e)
    ensures var (st', messages) := Encoded(st, e);
            && st'.started && st'.open == LastKind(before + [e])
            && st'.usage == (if e.UsageDelta? then Merge(st.usage, e.usage) else st.usage)
            && ToldAll(None, messages) == (None, if e.UsageDelta? then [] else Opener(before, e) + [e])
  {
    assert (before + [e])[..|before|] == before;
    assert [] + [e] == [e];
    match e
    case TextDelta(text) => ToldOfDelivered(st, TextPiece(text));
    case ThinkingDelta(text) => ToldOfDelivered(st, ThinkingPiece(text));
    case ToolUseStart(id, name) => ToldOfOpened(st, ToolBlock(id, name));
    case ToolUseDelta(json) => ToldOfDelivered(st, JsonPiece(json));
    case UsageDelta(_) =>
  }

  /** After any opened prefix: the reader's fold is the sender's, adopted, but for usage. */
  lemma {:induction false} TrackPrefix(model: string, body: seq<StreamEvent>)
    requires forall i :: 0 <= i < |body| ==> IsBody(body[i])
    ensures var events := [MessageStart(model)] + body;
            var (st, messages) := EncodedAll(FRESH_EMIT, events);
            var (d, told) := ToldAll(None, messages);
            var a := PushedAll(EMPTY, Adopted(events));
            && st.started && st.open == LastKind(events) && d == None
            && st.usage == a.usage && a.stop == None
            && PushedAll(EMPTY, told) == a.(usage := NO_USAGE)
    decreases |body|
  {
    var events := [MessageStart(model)] + body;
    if body == [] {
      assert events == [MessageStart(model)];
      TrackOpening(model);
    } else {
      var n := |body| - 1;
      var init, e := [MessageStart(model)] + body[..n], body[n];
      assert events[..|events| - 1] == init && events == init + [e];
      TrackPrefix(model, body[..n]);
      var (st, before) := EncodedAll(FRESH_EMIT, init);
      var (st', messages) := Encoded(st, e);
      ToldOfEvent(st, init, e);
      ToldAllConcat(None, before, messages);
      TrackFold(init, ToldAll(None, before).1, e);
      PushedAllConcat(EMPTY, ToldAll(None, before).1, ToldAll(None, messages).1);
    }
  }

  lemma TrackOpening(model: string)
    ensures var events := [MessageStart(model)];
            var (st, messages) := EncodedAll(FRESH_EMIT, events);
            && st == FRESH_EMIT.(started := true, model := model)
            && ToldAll(None, messages) == (None, [MessageStart(model), UsageDelta(NO_USAGE)])
            && LastKind(events) == None
            && Adopted(events) == events
            && PushedAll(EMPTY, events) == EMPTY.(model := model)
            && PushedAll(EMPTY, [MessageStart(model), UsageDelta(NO_USAGE)]) == EMPTY.(model := model)
  {
    var events := [MessageStart(model)];
    assert events[..0] == [];
    ToldOne(None, StartMessage(model));
    PushedOne(EMPTY, MessageStart(model));
    var read := [MessageStart(model), UsageDelta(NO_USAGE)];
    assert read[..1] == events;
    assert EncodedAll(FRESH_EMIT, []) == (FRESH_EMIT, []);
    assert EncodedAll(FRESH_EMIT, events).1 == [StartMessage(model)];
  }

  /** Folding one more event on both sides. */
  lemma TrackFold(init: seq<StreamEvent>, told: seq<StreamEvent>, e: StreamEvent)
    requires IsBody(e)
    requires PushedAll(EMPTY, told) == PushedAll(EMPTY, Adopted(init)).(usage := NO_USAGE)
    ensures var more := if e.UsageDelta? then [] else Opener(init, e) + [e];
            var a := PushedAll(EMPTY, Adopted(init));
            var a' := PushedAll(EMPTY, Adopted(init + [e]));
            && PushedAll(PushedAll(EMPTY, told), more) == a'.(usage := NO_USAGE)
            && a'.stop == a.stop
            && a'.usage == (if e.UsageDelta? then Merge(a.usage, e.usage) else a.usage)
  {
    hide PushedAll, Pushed, Adopted;
    var a, b := PushedAll(EMPTY, Adopted(init)), PushedAll(EMPTY, told);
    var opener := Opener(init, e);
    AdoptedStep(init, e);
    PushedSnoc(EMPTY, Adopted(init) + opener, e);
    PushedAllConcat(EMPTY, Adopted(init), opener);
    OpenerFold(init, e, a);
    OpenerFold(init, e, b);
    PushedBody(PushedAll(a, opener), e);
    if e.UsageDelta? {
      assert opener == [];
      PushedNothing(b);
    } else {
      PushedSnoc(b, opener, e);
    }
  }

  lemma PushedNothing(a: Fold)
    ensures PushedAll(a, []) == a
  {
  }

  /** A body event leaves the stop reason, and all but a usage report leave the usage and do not look at it. */
  lemma PushedBody(a: Fold, e: StreamEvent)
    requires IsBody(e)
    ensures Pushed(a, e).stop == a.stop
    ensures if e.UsageDelta? then Pushed(a, e) == a.(usage := Merge(a.usage, e.usage))
            else Pushed(a, e).usage == a.usage && Pushed(a.(usage := NO_USAGE), e) == Pushed(a, e).(usage := NO_USAGE)
  {
  }

  lemma OpenerFold(init: seq<StreamEvent>, e: StreamEvent, a: Fold)
    ensures PushedAll(a, Opener(init, e)) ==
            if IsOrphan(init, e) then a.(tools := a.tools + [PartialTool("", "", "")]) else a
  {
    PushedOne(a, ToolUseStart("", ""));
  }

  // ---------------------------------------------------------------------
  // The whole turn
  // ---------------------------------------------------------------------

  function ReadFold(a: Fold): Fold {
    a.(usage := Tokens(0, a.usage.output), stop := Some(StopFromText(StopText(a.stop.GetOr(EndTurn)))))
  }

  lemma ToldOfFinished(st: Emit, stop: StopReason)
    requires st.started
    ensures ToldAll(None, Finished(st, stop).1) ==
            (None, [UsageDelta(Tokens(0, st.usage.output)), Done(StopFromText(StopText(stop)))])
  {
    var (st2, close) := Closed(st);
    var end := MessageDelta(StopText(stop), st.usage.output);
    assert Finished(st, stop).1 == close + [end, StopMessage];
    ToldOne(None, BlockStop(st.nextIndex));
    assert [end, StopMessage] == [end] + [StopMessage];
    ToldOne(None, end);
    var d := Some(StopFromText(StopText(stop)));
    ToldOne(d, StopMessage);
    ToldAllConcat(None, [end], [StopMessage]);
    ToldAllConcat(None, close, [end, StopMessage]);
    var told := ToldAll(None, [end, StopMessage]).1;
    assert [] + told == told;
    var usage, done := UsageDelta(Tokens(0, st.usage.output)), Done(StopFromText(StopText(stop)));
    assert told == [usage] + [done] == [usage, done];
  }

  lemma ReadTurn(model: string, body: seq<StreamEvent>, stop: StopReason)
    requires forall i :: 0 <= i < |body| ==> IsBody(body[i])
    ensures var events := [MessageStart(model)] + body + [Done(stop)];
            var a := PushedAll(EMPTY, Adopted(events));
            && a.stop == Some(stop)
            && PushedAll(EMPTY, ToldAll(None, EncodedAll(FRESH_EMIT, events).1).1) == ReadFold(a)
  {
    hide PushedAll, Adopted, ToldAll, EncodedAll, Finished, LastKind;
    var init := [MessageStart(model)] + body;
    TrackPrefix(model, body);
    ToldSnoc(init, Done(stop));
    var (st, before) := EncodedAll(FRESH_EMIT, init);
    var told, a := ToldAll(None, before).1, PushedAll(EMPTY, Adopted(init));
    ToldOfFinished(st, stop);
    PushedAllConcat(EMPTY, told, ToldAll(None, Finished(st, stop).1).1);
    CloseFold(a, PushedAll(EMPTY, told), stop);
    AdoptedDone(init, stop);
    PushedSnoc(EMPTY, Adopted(init), Done(stop));
  }

  /** What one more event adds to what the reader is told. */
  lemma ToldSnoc(events: seq<StreamEvent>, e: StreamEvent)
    ensures var (st, before) := EncodedAll(FRESH_EMIT, events);
            var (d, told) := ToldAll(None, before);
            ToldAll(None, EncodedAll(FRESH_EMIT, events + [e]).1).1 == told + ToldAll(d, Encoded(st, e).1).1
  {
    assert (events + [e])[..|events|] == events;
    var (st, before) := EncodedAll(FRESH_EMIT, events);
    ToldAllConcat(None, before, Encoded(st, e).1);
  }

  lemma AdoptedDone(init: seq<StreamEvent>, stop: StopReason)
    ensures Adopted(init + [Done(stop)]) == Adopted(init) + [Done(stop)]
  {
    assert (init + [Done(stop)])[..|init|] == init;
    assert Adopted(init) + [] == Adopted(init);
  }

  lemma CloseFold(a: Fold, b: Fold, stop: StopReason)
    requires b == a.(usage := NO_USAGE)
    ensures PushedAll(b, [UsageDelta(Tokens(0, a.usage.output)), Done(StopFromText(StopText(stop)))])
            == ReadFold(Pushed(a, Done(stop)))
  {
    FoldClosing(b, Tokens(0, a.usage.output), StopFromText(StopText(stop)));
  }

  lemma ViewOfFold(c: Codec, a: Fold, id: string)
    requires a.stop.Some?
    ensures Response(c, ReadFold(a), id) == View(Response(c, a, id))
  {
    HasToolBlock(c, a, id);
  }

  /** Every turn: what an Anthropic client's text means is the dialect's view of
      the turn with its orphans adopted. */
  lemma AnthropicMeaning(c: Codec, events: seq<StreamEvent>, id: string)
    requires Lawful(c)
    requires IsTurn(events)
    ensures Meaning(c, Decoding(c, Encoding(c, events)), id) == View(Meaning(c, Adopted(events), id))
  {
    var model, body, stop := TurnParts(events);
    ReadTurn(model, body, stop);
    DecodingOfEncoding(c, events);
    ViewOfFold(c, PushedAll(EMPTY, Adopted(events)), id);
  }

  /** The number of tool calls in a response. */
  function CallCount(content: seq<ContentBlock>): nat {
    if content == [] then 0
    else CallCount(content[..|content| - 1]) + if content[|content| - 1].ToolCall? then 1 else 0
  }

  lemma {:induction false} CallCountOf(c: Codec, head: seq<ContentBlock>, tools: seq<PartialTool>)
    requires forall b :: b in head ==> !b.ToolCall?
    ensures CallCount(head + ToolBlocks(c, tools)) == |tools|
    decreases |head| + |tools|
  {
    var content := head + ToolBlocks(c, tools);
    if tools != [] {
      var n := |tools| - 1;
      assert content == head + ToolBlocks(c, tools[..n]) + [Aggregate.ToolBlock(c, tools[n])];
      assert content[..|content| - 1] == head + ToolBlocks(c, tools[..n]);
      CallCountOf(c, head, tools[..n]);
    } else if head != [] {
      assert content == head;
      assert head[..|head| - 1] + ToolBlocks(c, []) == head[..|head| - 1];
      CallCountOf(c, head[..|head| - 1], []);
    }
  }

  lemma CallCountOfResponse(c: Codec, a: Fold, id: string)
    ensures CallCount(Response(c, a, id).content) == |a.tools|
  {
    CallCountOf(c, ThinkingBlocks(a.thinking) + TextBlocks(a.text), a.tools);
  }

  /** A turn keeps its meaning, as far as the dialect can say it, exactly when
      no tool input is separated from its tool call by text or thinking. */
  lemma AnthropicKeepsMeaningIff(c: Codec, events: seq<StreamEvent>, id: string)
    requires Lawful(c)
    requires IsTurn(events)
    ensures Meaning(c, Decoding(c, Encoding(c, events)), id) == View(Meaning(c, events, id)) <==> NoOrphans(events)
  {
    AnthropicMeaning(c, events, id);
    AdoptedTools(events);
    if !NoOrphans(events) {
      CallCountOfResponse(c, PushedAll(EMPTY, Adopted(events)), id);
      CallCountOfResponse(c, PushedAll(EMPTY, events), id);
    }
  }

  /** A turn whose text comes between a call and its input does not keep its meaning. */
  lemma ATurnWithAnOrphan(c: Codec, id: string)
    requires Lawful(c)
    ensures var events := [MessageStart("m"), ToolUseStart("1", "f"), TextDelta("so"), ToolUseDelta("{}"), Done(ToolUse)];
            && IsTurn(events)
            && Meaning(c, Decoding(c, Encoding(c, events)), id) != View(Meaning(c, events, id))
  {
    var events := [MessageStart("m"), ToolUseStart("1", "f"), TextDelta("so"), ToolUseDelta("{}"), Done(ToolUse)];
    assert IsOrphan(events[..3], events[3]);
    hide Lawful, Encoding, Decoding, Meaning, View;
    AnthropicKeepsMeaningIff(c, events, id);
  }

  /** Exactly which stop reasons survive. */
  lemma AnthropicStopAgrees(c: Codec, events: seq<StreamEvent>, id: string)
    requires Lawful(c)
    requires IsTurn(events) && NoOrphans(events)
    ensures var stop := events[|events| - 1].stop;
            Meaning(c, Decoding(c, Encoding(c, events)), id).stop == Meaning(c, events, id).stop
            <==> (stop.Other? ==> stop.reason !in ["end_turn", "max_tokens", "stop_sequence", "tool_use"])
  {
    AnthropicKeepsMeaningIff(c, events, id);
    StopOfTurn(events);
    StopSurvives(c, PushedAll(EMPTY, events), id);
  }

  lemma StopSurvives(c: Codec, a: Fold, id: string)
    requires a.stop.Some?
    ensures View(Response(c, a, id)).stop == Response(c, a, id).stop
            <==> (a.stop.value.Other? ==>
                  a.stop.value.reason !in ["end_turn", "max_tokens", "stop_sequence", "tool_use"])
  {
    HasToolBlock(c, a, id);
  }
}
