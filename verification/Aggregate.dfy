/**
 Folding a stream of events into one response and expanding a response back
 into events (yb-wire/src/aggregate.rs). The fold is what a stream means.
 */
module Aggregate {
  import opened Prelude
  import opened Json
  import opened Ir

  datatype PartialTool = PartialTool(id: string, name: string, json: string)

  datatype Fold = Fold(
    model: string,
    text: string,
    thinking: string,
    tools: seq<PartialTool>,
    usage: Usage,
    stop: Option<StopReason>)

  const EMPTY := Fold("", "", "", [], NO_USAGE, None)

  function AppendJson(tools: seq<PartialTool>, more: string): seq<PartialTool> {
    if tools == [] then []
    else
      var last := tools[|tools| - 1];
      tools[..|tools| - 1] + [last.(json := last.json + more)]
  }

  function Pushed(a: Fold, e: StreamEvent): Fold {
    match e
    case MessageStart(model) => if a.model == "" then a.(model := model) else a
    case TextDelta(text) => a.(text := a.text + text)
    case ThinkingDelta(text) => a.(thinking := a.thinking + text)
    case ToolUseStart(id, name) => a.(tools := a.tools + [PartialTool(id, name, "")])
    case ToolUseDelta(more) => a.(tools := AppendJson(a.tools, more))
    case UsageDelta(usage) => a.(usage := Merge(a.usage, usage))
    case Done(stop) => a.(stop := Some(stop))
  }

  function PushedAll(a: Fold, events: seq<StreamEvent>): Fold {
    if events == [] then a
    else Pushed(PushedAll(a, events[..|events| - 1]), events[|events| - 1])
  }

  lemma {:induction false} PushedAllConcat(a: Fold, xs: seq<StreamEvent>, ys: seq<StreamEvent>)
    ensures PushedAll(a, xs + ys) == PushedAll(PushedAll(a, xs), ys)
  {
    if ys == [] {
      assert xs + ys == xs;
    } else {
      assert (xs + ys)[..|xs + ys| - 1] == xs + ys[..|ys| - 1];
      PushedAllConcat(a, xs, ys[..|ys| - 1]);
    }
  }

  lemma PushedSnoc(a: Fold, xs: seq<StreamEvent>, e: StreamEvent)
    ensures PushedAll(a, xs + [e]) == Pushed(PushedAll(a, xs), e)
  {
    assert (xs + [e])[..|xs|] == xs;
  }

  /** A tool's input: what its JSON parses to, the empty object otherwise. */
  function ToolInput(c: Codec, json: string): Value {
    if Blank(json) then EMPTY_OBJECT else ParseOrEmpty(c, json)
  }

  function ToolBlock(c: Codec, t: PartialTool): ContentBlock {
    ToolCall(t.id, t.name, ToolInput(c, t.json))
  }

  predicate AllCalls(blocks: seq<ContentBlock>) {
    forall i :: 0 <= i < |blocks| ==> blocks[i].ToolCall?
  }

  function ToolBlocks(c: Codec, tools: seq<PartialTool>): (blocks: seq<ContentBlock>)
    ensures |blocks| == |tools| && AllCalls(blocks)
  {
    if tools == [] then []
    else ToolBlocks(c, tools[..|tools| - 1]) + [ToolBlock(c, tools[|tools| - 1])]
  }

  /** Tool calls turn a plain or missing end of turn into a tool-use stop. */
  function FinalStop(stop: Option<StopReason>, hadTools: bool): StopReason {
    if hadTools && (stop == None || stop == Some(EndTurn)) then ToolUse
    else stop.GetOr(EndTurn)
  }

  function ThinkingBlocks(thought: string): seq<ContentBlock> {
    if thought == "" then [] else [Thinking(thought, None)]
  }

  function TextBlocks(text: string): seq<ContentBlock> {
    if text == "" then [] else [Text(text)]
  }

  function Response(c: Codec, a: Fold, id: string): ChatResponse {
    ChatResponse(
      id, a.model,
      ThinkingBlocks(a.thinking) + TextBlocks(a.text) + ToolBlocks(c, a.tools),
      FinalStop(a.stop, a.tools != []), a.usage, None, None)
  }

  /** What a whole stream means. */
  function Meaning(c: Codec, events: seq<StreamEvent>, id: string): ChatResponse {
    Response(c, PushedAll(EMPTY, events), id)
  }

  function BlockEvents(c: Codec, b: ContentBlock): seq<StreamEvent> {
    match b
    case Thinking(thought, _) => [ThinkingDelta(thought)]
    case Text(text) => [TextDelta(text)]
    case ToolCall(id, name, input) => [ToolUseStart(id, name), ToolUseDelta(c.show(input))]
    case OtherBlock(_) => []
  }

  function ContentEvents(c: Codec, content: seq<ContentBlock>): seq<StreamEvent> {
    if content == [] then []
    else ContentEvents(c, content[..|content| - 1]) + BlockEvents(c, content[|content| - 1])
  }

  function ResponseEvents(c: Codec, r: ChatResponse): seq<StreamEvent> {
    [MessageStart(r.model)] + ContentEvents(c, r.content) + [UsageDelta(r.usage), Done(r.stop)]
  }

  // ---------------------------------------------------------------------
  // The in-place accumulator and the expanding loop
  // ---------------------------------------------------------------------

  class Aggregator {
    var model: string
    var text: string
    var thinking: string
    var tools: seq<PartialTool>
    var usage: Usage
    var stop: Option<StopReason>

    ghost function View(): Fold
      reads this
    {
      Fold(model, text, thinking, tools, usage, stop)
    }

    constructor ()
      ensures View() == EMPTY
    {
      model, text, thinking, tools, usage, stop := "", "", "", [], NO_USAGE, None;
    }

    method Push(e: StreamEvent)
      modifies this
      ensures View() == Pushed(old(View()), e)
    {
      match e
      case MessageStart(m) =>
        if model == "" { model := m; }
      case TextDelta(t) => text := text + t;
      case ThinkingDelta(t) => thinking := thinking + t;
      case ToolUseStart(id, name) => tools := tools + [PartialTool(id, name, "")];
      case ToolUseDelta(more) =>
        if tools != [] {
          var last := tools[|tools| - 1];
          tools := tools[|tools| - 1 := last.(json := last.json + more)];
        }
      case UsageDelta(u) => usage := Merge(usage, u);
      case Done(s) => stop := Some(s);
    }

    method PushAll(events: seq<StreamEvent>)
      modifies this
      ensures View() == PushedAll(old(View()), events)
    {
      for i := 0 to |events|
        invariant View() == PushedAll(old(View()), events[..i])
      {
        Push(events[i]);
        assert events[..i + 1][..i] == events[..i];
      }
      assert events[..|events|] == events;
    }

    method IntoResponse(c: Codec, id: string) returns (r: ChatResponse)
      ensures r == Response(c, View(), id)
    {
      var content := [];
      if thinking != "" { content := content + [Thinking(thinking, None)]; }
      if text != "" { content := content + [Text(text)]; }
      ghost var before := content;
      for i := 0 to |tools|
        invariant content == before + ToolBlocks(c, tools[..i])
      {
        var input := EMPTY_OBJECT;
        if !Blank(tools[i].json) {
          input := ParseOrEmpty(c, tools[i].json);
        }
        content := content + [ToolCall(tools[i].id, tools[i].name, input)];
        assert tools[..i + 1][..i] == tools[..i];
      }
      assert tools[..|tools|] == tools;
      r := ChatResponse(id, model, content, FinalStop(stop, tools != []), usage, None, None);
    }
  }

  method EventsFromResponse(c: Codec, r: ChatResponse) returns (events: seq<StreamEvent>)
    ensures events == ResponseEvents(c, r)
  {
    hide BlockEvents;
    events := [MessageStart(r.model)];
    for i := 0 to |r.content|
      invariant events == [MessageStart(r.model)] + ContentEvents(c, r.content[..i])
    {
      assert r.content[..i + 1][..i] == r.content[..i];
      var more := EventsFromBlock(c, r.content[i]);
      ConcatAssoc([MessageStart(r.model)], ContentEvents(c, r.content[..i]), more);
      events := events + more;
    }
    assert r.content[..|r.content|] == r.content;
    events := events + [UsageDelta(r.usage), Done(r.stop)];
  }

  method EventsFromBlock(c: Codec, b: ContentBlock) returns (events: seq<StreamEvent>)
    ensures events == BlockEvents(c, b)
  {
    match b {
      case Thinking(thought, _) => events := [ThinkingDelta(thought)];
      case Text(text) => events := [TextDelta(text)];
      case ToolCall(id, name, input) => events := [ToolUseStart(id, name), ToolUseDelta(c.show(input))];
      case OtherBlock(_) => events := [];
    }
  }

  // ---------------------------------------------------------------------
  // The round trip and its fixed points
  // ---------------------------------------------------------------------

  function ShownTool(c: Codec, b: ContentBlock): PartialTool
    requires b.ToolCall?
  {
    PartialTool(b.id, b.name, c.show(b.input))
  }

  /** The tool calls a run of tool blocks stands for, before parsing. */
  function ShownTools(c: Codec, blocks: seq<ContentBlock>): seq<PartialTool>
    requires AllCalls(blocks)
  {
    if blocks == [] then []
    else ShownTools(c, blocks[..|blocks| - 1]) + [ShownTool(c, blocks[|blocks| - 1])]
  }

  /** Expanding one tool block opens the call and fills in its shown input. */
  lemma FoldToolBlock(c: Codec, a: Fold, b: ContentBlock)
    requires b.ToolCall?
    ensures PushedAll(a, BlockEvents(c, b)) == a.(tools := a.tools + [ShownTool(c, b)])
  {
    var begun := Pushed(a, ToolUseStart(b.id, b.name));
    PushedOne(a, ToolUseStart(b.id, b.name));
    assert BlockEvents(c, b)[..1] == [ToolUseStart(b.id, b.name)];
    assert begun.tools[..|a.tools|] == a.tools;
    assert "" + c.show(b.input) == c.show(b.input);
  }

  /** Expanding tool blocks after any fold appends exactly their shown calls. */
  lemma {:induction false} FoldToolBlocks(c: Codec, a: Fold, blocks: seq<ContentBlock>)
    requires AllCalls(blocks)
    ensures PushedAll(a, ContentEvents(c, blocks)) == a.(tools := a.tools + ShownTools(c, blocks))
  {
    if blocks == [] {
      assert a.tools + ShownTools(c, blocks) == a.tools;
    } else {
      var init, last := blocks[..|blocks| - 1], blocks[|blocks| - 1];
      FoldToolBlocks(c, a, init);
      PushedAllConcat(a, ContentEvents(c, init), BlockEvents(c, last));
      FoldToolBlock(c, PushedAll(a, ContentEvents(c, init)), last);
      ConcatAssoc(a.tools, ShownTools(c, init), [ShownTool(c, last)]);
    }
  }

  /** What only a fold can produce: at most one thought, then at most one text,
      then tool calls, and no plain end of turn beside a tool call. */
  ghost predicate IsCanonical(r: ChatResponse) {
    exists thought: string, text: string, calls: seq<ContentBlock> ::
      IsCanonicalAs(r, thought, text, calls)
  }

  ghost predicate IsCanonicalAs(r: ChatResponse, thought: string, text: string, calls: seq<ContentBlock>) {
    && r.content == ThinkingBlocks(thought) + TextBlocks(text) + calls
    && AllCalls(calls)
    && (calls != [] ==> r.stop != EndTurn)
    && r.promptCacheKey == None && r.promptCacheRetention == None
  }

  lemma {:induction false} ContentEventsConcat(c: Codec, xs: seq<ContentBlock>, ys: seq<ContentBlock>)
    ensures ContentEvents(c, xs + ys) == ContentEvents(c, xs) + ContentEvents(c, ys)
  {
    if ys == [] {
      assert xs + ys == xs;
    } else {
      assert (xs + ys)[..|xs + ys| - 1] == xs + ys[..|ys| - 1];
      ContentEventsConcat(c, xs, ys[..|ys| - 1]);
    }
  }

  lemma OneBlockEvents(c: Codec, b: ContentBlock)
    ensures ContentEvents(c, [b]) == BlockEvents(c, b)
  {
    assert [b][..0] == [];
    assert [] + BlockEvents(c, b) == BlockEvents(c, b);
  }

  lemma PushedOne(a: Fold, e: StreamEvent)
    ensures PushedAll(a, [e]) == Pushed(a, e)
  {
    assert [e][..0] == [];
  }

  lemma FoldThought(c: Codec, a: Fold, thought: string)
    ensures PushedAll(a, ContentEvents(c, ThinkingBlocks(thought))) == a.(thinking := a.thinking + thought)
  {
    if thought == "" {
      assert a.thinking + thought == a.thinking;
    } else {
      OneBlockEvents(c, Thinking(thought, None));
      PushedOne(a, ThinkingDelta(thought));
    }
  }

  lemma FoldText(c: Codec, a: Fold, text: string)
    ensures PushedAll(a, ContentEvents(c, TextBlocks(text))) == a.(text := a.text + text)
  {
    if text == "" {
      assert a.text + text == a.text;
    } else {
      OneBlockEvents(c, Text(text));
      PushedOne(a, TextDelta(text));
    }
  }

  lemma FoldContent(c: Codec, model: string, thought: string, text: string, calls: seq<ContentBlock>)
    requires AllCalls(calls)
    ensures PushedAll(EMPTY.(model := model), ContentEvents(c, ThinkingBlocks(thought) + TextBlocks(text) + calls))
            == Fold(model, text, thought, ShownTools(c, calls), NO_USAGE, None)
  {
    hide PushedAll, ContentEvents, ShownTools, ThinkingBlocks, TextBlocks;
    var a := EMPTY.(model := model);
    var x, y, z := ThinkingBlocks(thought), TextBlocks(text), calls;
    ContentEventsConcat(c, x + y, z);
    ContentEventsConcat(c, x, y);
    PushedAllConcat(a, ContentEvents(c, x) + ContentEvents(c, y), ContentEvents(c, z));
    PushedAllConcat(a, ContentEvents(c, x), ContentEvents(c, y));
    FoldThought(c, a, thought);
    assert "" + thought == thought && "" + text == text;
    var b := a.(thinking := thought);
    FoldText(c, b, text);
    FoldToolBlocks(c, b.(text := text), calls);
    assert [] + ShownTools(c, calls) == ShownTools(c, calls);
  }

  /** The events of a canonical response fold to its own parts. */
  lemma FoldCanonical(c: Codec, r: ChatResponse, thought: string, text: string, calls: seq<ContentBlock>)
    requires IsCanonicalAs(r, thought, text, calls)
    ensures PushedAll(EMPTY, ResponseEvents(c, r)) ==
            Fold(r.model, text, thought, ShownTools(c, calls), r.usage, Some(r.stop))
  {
    var head, content, tail := [MessageStart(r.model)], ContentEvents(c, r.content), [UsageDelta(r.usage), Done(r.stop)];
    PushedAllConcat(EMPTY, head + content, tail);
    PushedAllConcat(EMPTY, head, content);
    PushedOne(EMPTY, MessageStart(r.model));
    FoldContent(c, r.model, thought, text, calls);
    var d := Fold(r.model, text, thought, ShownTools(c, calls), NO_USAGE, None);
    FoldClosing(d, r.usage, r.stop);
  }

  /** Shown inputs parse back, so tool blocks survive expansion. */
  lemma {:induction false} ShownToolsParseBack(c: Codec, calls: seq<ContentBlock>)
    requires Lawful(c)
    requires AllCalls(calls)
    ensures ToolBlocks(c, ShownTools(c, calls)) == calls
  {
    hide Lawful, ToolBlock, ShownTool;
    if calls != [] {
      var n := |calls| - 1;
      ShownToolsParseBack(c, calls[..n]);
      ShownToolParsesBack(c, calls[n]);
      var shown := ShownTools(c, calls);
      assert shown[..|shown| - 1] == ShownTools(c, calls[..n]);
    }
  }

  lemma ShownToolParsesBack(c: Codec, b: ContentBlock)
    requires Lawful(c) && b.ToolCall?
    ensures ToolBlock(c, ShownTool(c, b)) == b
  {
    PrintedIsNotBlank(c, b.input);
  }

  lemma FoldIsCanonical(c: Codec, a: Fold, id: string)
    ensures IsCanonical(Response(c, a, id))
  {
    assert IsCanonicalAs(Response(c, a, id), a.thinking, a.text, ToolBlocks(c, a.tools));
  }

  lemma CanonicalComesBack(c: Codec, r: ChatResponse, thought: string, text: string, calls: seq<ContentBlock>)
    requires Lawful(c) && IsCanonicalAs(r, thought, text, calls)
    ensures Meaning(c, ResponseEvents(c, r), r.id) == r
  {
    hide PushedAll, ResponseEvents, ToolBlocks, ShownTools;
    FoldCanonical(c, r, thought, text, calls);
    ShownToolsParseBack(c, calls);
    NoToolsNoCalls(c, calls);
  }

  lemma NoToolsNoCalls(c: Codec, calls: seq<ContentBlock>)
    requires AllCalls(calls)
    ensures ShownTools(c, calls) == [] <==> calls == []
  {
  }

  /** Expanding and folding a response gives it back exactly when it is canonical. */
  lemma FixedPointIffCanonical(c: Codec, r: ChatResponse)
    requires Lawful(c)
    ensures Meaning(c, ResponseEvents(c, r), r.id) == r <==> IsCanonical(r)
  {
    hide PushedAll, ResponseEvents, ToolBlocks, IsCanonicalAs;
    if IsCanonical(r) {
      var thought, text, calls :| IsCanonicalAs(r, thought, text, calls);
      CanonicalComesBack(c, r, thought, text, calls);
    } else {
      FoldIsCanonical(c, PushedAll(EMPTY, ResponseEvents(c, r)), r.id);
    }
  }

  /** For every stream: expanding its meaning and folding again changes nothing. */
  lemma MeaningIsStable(c: Codec, events: seq<StreamEvent>, id: string)
    requires Lawful(c)
    ensures var r := Meaning(c, events, id);
            Meaning(c, ResponseEvents(c, r), id) == r
  {
    FoldIsCanonical(c, PushedAll(EMPTY, events), id);
    FixedPointIffCanonical(c, Meaning(c, events, id));
  }

  // ---------------------------------------------------------------------
  // Facts about whole turns
  // ---------------------------------------------------------------------

  lemma FoldClosing(b: Fold, u: Usage, stop: StopReason)
    ensures PushedAll(b, [UsageDelta(u), Done(stop)]) == b.(usage := Merge(b.usage, u), stop := Some(stop))
  {
    assert [UsageDelta(u), Done(stop)][..1] == [UsageDelta(u)];
    PushedOne(b, UsageDelta(u));
  }

  lemma TurnParts(events: seq<StreamEvent>) returns (model: string, body: seq<StreamEvent>, stop: StopReason)
    requires IsTurn(events)
    ensures events == [MessageStart(model)] + body + [Done(stop)]
    ensures forall i :: 0 <= i < |body| ==> IsBody(body[i])
    ensures stop == events[|events| - 1].stop
  {
    var n := |events| - 1;
    model, body, stop := events[0].model, events[1..n], events[n].stop;
  }

  lemma StopOfTurn(events: seq<StreamEvent>)
    requires IsTurn(events)
    ensures PushedAll(EMPTY, events).stop == Some(events[|events| - 1].stop)
  {
  }

  lemma HasToolBlock(c: Codec, a: Fold, id: string)
    ensures (exists b :: b in Response(c, a, id).content && b.ToolCall?) <==> a.tools != []
  {
    var head := ThinkingBlocks(a.thinking) + TextBlocks(a.text);
    if a.tools != [] {
      assert Response(c, a, id).content[|head|] == ToolBlocks(c, a.tools)[0];
    }
  }
}
