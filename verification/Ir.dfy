/** The provider-neutral representation of a chat turn (yb-wire/src/ir.rs). */
module Ir {
  import opened Prelude
  import opened Json

  datatype StopReason = EndTurn | MaxTokens | StopSequence | ToolUse | Other(reason: string)

  /** The reason's canonical string, and the reading of one. */
  function StopText(s: StopReason): string {
    match s
    case EndTurn => "end_turn"
    case MaxTokens => "max_tokens"
    case StopSequence => "stop_sequence"
    case ToolUse => "tool_use"
    case Other(reason) => reason
  }

  function StopFromText(s: string): StopReason {
    if s == "end_turn" then EndTurn
    else if s == "max_tokens" then MaxTokens
    else if s == "stop_sequence" then StopSequence
    else if s == "tool_use" then ToolUse
    else Other(s)
  }

  datatype Usage = Usage(
    input: U32, output: U32, cacheRead: U32, cacheWrite: U32,
    reasoning: U32, promptMs: U32, generationMs: U32)

  const NO_USAGE := Usage(0, 0, 0, 0, 0, 0, 0)

  /** A report of input and output tokens alone. */
  function Tokens(input: U32, output: U32): Usage {
    Usage(input, output, 0, 0, 0, 0, 0)
  }

  function Max(a: U32, b: U32): U32 {
    if a < b then b else a
  }

  /** The larger report of each field. */
  function Merge(a: Usage, b: Usage): Usage {
    Usage(Max(a.input, b.input), Max(a.output, b.output), Max(a.cacheRead, b.cacheRead),
          Max(a.cacheWrite, b.cacheWrite), Max(a.reasoning, b.reasoning),
          Max(a.promptMs, b.promptMs), Max(a.generationMs, b.generationMs))
  }

  datatype StreamEvent =
    | MessageStart(model: string)
    | TextDelta(text: string)
    | ThinkingDelta(text: string)
    | ToolUseStart(id: string, name: string)
    | ToolUseDelta(partialJson: string)
    | UsageDelta(usage: Usage)
    | Done(stop: StopReason)

  /** Neither the opening nor the closing event. */
  predicate IsBody(e: StreamEvent) {
    !e.MessageStart? && !e.Done?
  }

  predicate HasDone(events: seq<StreamEvent>) {
    exists e :: e in events && e.Done?
  }

  /** One turn as an upstream sends it: an opening, a body, a closing. */
  predicate IsTurn(events: seq<StreamEvent>) {
    && |events| >= 2
    && events[0].MessageStart?
    && events[|events| - 1].Done?
    && forall i :: 1 <= i < |events| - 1 ==> IsBody(events[i])
  }

  datatype ContentBlock =
    | Text(text: string)
    | Thinking(thought: string, signature: Option<string>)
    | ToolCall(id: string, name: string, input: Value)
    // Images, tool results, cached text and provider-native blocks.
    | OtherBlock(raw: Value)

  datatype ChatResponse = ChatResponse(
    id: string,
    model: string,
    content: seq<ContentBlock>,
    stop: StopReason,
    usage: Usage,
    promptCacheKey: Option<string>,
    promptCacheRetention: Option<string>)
}
