/**
 What a Gemini upstream's lines mean (yb-wire/src/gemini.rs), said of their JSON alone:
 the events each part of a chunk gives, the counts and the reason a finished candidate
 reports, and the counts a whole stream comes to.
 */
module GeminiReading {
  import opened Prelude
  import opened Json
  import opened Ir
  import opened Aggregate
  import opened Sse
  import opened Reading
  import opened Gemini
  import GeminiRoundTrip

  /** The three counts of a usage object; the last is what came from the cache. */
  ghost predicate SaysCounts(u: Value, report: Usage) {
    && Counts(u, "promptTokenCount", report.input)
    && Counts(u, "candidatesTokenCount", report.output)
    && Counts(u, "cachedContentTokenCount", report.cacheRead)
    && report == Usage(report.input, report.output, report.cacheRead, 0, 0, 0, 0)
  }

  lemma CountsRead(u: Value, report: Usage)
    requires SaysCounts(u, report)
    ensures UsageOf(u) == report
  {
    CountRead(u, "promptTokenCount", report.input);
    CountRead(u, "candidatesTokenCount", report.output);
    CountRead(u, "cachedContentTokenCount", report.cacheRead);
  }

  // ---------------------------------------------------------------------
  // One part
  // ---------------------------------------------------------------------

  ghost predicate SaysText(part: Value, text: string) {
    Has(part, "text", Str(text))
  }

  /** A call under either spelling of its key; one without arguments has none. */
  ghost predicate SaysCall(part: Value, name: string, args: Value) {
    && (forall text :: !SaysText(part, text))
    && exists call ::
         && (Has(part, "functionCall", call) || (!Holds(part, "functionCall") && Has(part, "function_call", call)))
         && TextIs(call, "name", name)
         && (Has(call, "args", args) || (args == Obj(map[]) && !Holds(call, "args")))
  }

  ghost predicate SaysNothing(part: Value) {
    (forall text :: !SaysText(part, text)) && !Holds(part, "functionCall") && !Holds(part, "function_call")
  }

  /** What a part gives the reader; a call's name stands in for its id. */
  ghost predicate PartSays(c: Codec, part: Value, events: seq<StreamEvent>) {
    || (exists text :: SaysText(part, text) && events == [TextDelta(text)])
    || (exists name, args :: SaysCall(part, name, args) && events == [ToolUseStart(name, name), ToolUseDelta(c.show(args))])
    || (SaysNothing(part) && events == [])
  }

  lemma PartRead(c: Codec, part: Value, events: seq<StreamEvent>)
    requires PartSays(c, part, events)
    ensures PartEvents(c, part) == events && (IsCall(part) <==> |events| == 2)
  {
    TextRead(part, "text");
    assert OptStr(part, "text").Some? ==> SaysText(part, OptStr(part, "text").value);
    if text :| SaysText(part, text) && events == [TextDelta(text)] {
      assert StrOrEmpty(part, "text") == text;
    } else if name, args :| SaysCall(part, name, args) && events == [ToolUseStart(name, name), ToolUseDelta(c.show(args))] {
      CallRead(part, name, args);
    }
  }

  lemma CallRead(part: Value, name: string, args: Value)
    requires SaysCall(part, name, args)
    ensures OptStr(part, "text") == None && CallOf(part).Some?
    ensures StrOrEmpty(CallOf(part).value, "name") == name
    ensures Get(CallOf(part).value, "args").GetOr(EMPTY_OBJECT) == args
  {
    var call :|
      && (Has(part, "functionCall", call) || (!Holds(part, "functionCall") && Has(part, "function_call", call)))
      && TextIs(call, "name", name)
      && (Has(call, "args", args) || (args == Obj(map[]) && !Holds(call, "args")));
    TextRead(part, "text");
    assert OptStr(part, "text").Some? ==> SaysText(part, OptStr(part, "text").value);
    TextIsRead(call, "name", name);
    assert CallOf(part) == Some(call);
  }

  /** What the parts of a chunk give, one after the other. */
  function Joined(pieces: seq<seq<StreamEvent>>): seq<StreamEvent> {
    if pieces == [] then [] else Joined(pieces[..|pieces| - 1]) + pieces[|pieces| - 1]
  }

  ghost predicate PartsSay(c: Codec, parts: seq<Value>, pieces: seq<seq<StreamEvent>>) {
    |pieces| == |parts| && forall k :: 0 <= k < |parts| ==> PartSays(c, parts[k], pieces[k])
  }

  ghost predicate SomeCall(pieces: seq<seq<StreamEvent>>) {
    exists k :: 0 <= k < |pieces| && |pieces[k]| == 2
  }

  lemma {:induction false} PartsRead(c: Codec, parts: seq<Value>, pieces: seq<seq<StreamEvent>>)
    requires PartsSay(c, parts, pieces)
    ensures PartsEvents(c, parts) == Joined(pieces) && (AnyCall(parts) <==> SomeCall(pieces))
    decreases |parts|
  {
    hide PartSays, PartEvents, IsCall;
    if parts != [] {
      var n := |parts| - 1;
      PartsRead(c, parts[..n], pieces[..n]);
      PartRead(c, parts[n], pieces[n]);
      assert SomeCall(pieces) <==> SomeCall(pieces[..n]) || |pieces[n]| == 2 by {
        assert forall k :: 0 <= k < n ==> pieces[..n][k] == pieces[k];
      }
    }
  }

  // ---------------------------------------------------------------------
  // One chunk
  // ---------------------------------------------------------------------

  /** A plain stop is a tool-use stop once a call was read; any other reason is kept in lower case. */
  ghost predicate SaysStop(finish: string, called: bool, stop: StopReason) {
    match stop
    case ToolUse => finish == "STOP" && called
    case EndTurn => finish == "STOP" && !called
    case MaxTokens => finish == "MAX_TOKENS"
    case StopSequence => false
    case Other(reason) => finish != "STOP" && finish != "MAX_TOKENS" && InLowerCase(finish, reason)
  }

  ghost predicate InLowerCase(s: string, r: string) {
    && |r| == |s|
    && forall i :: 0 <= i < |s| ==> if 'A' <= s[i] <= 'Z' then r[i] as int == s[i] as int + 32 else r[i] == s[i]
  }

  lemma StopRead(finish: string, called: bool, stop: StopReason)
    ensures SaysStop(finish, called, stop) <==> StopOfFinish(finish, called) == stop
  {
    assert InLowerCase(finish, Lower(finish));
    if stop.Other? && InLowerCase(finish, stop.reason) {
      assert forall i :: 0 <= i < |finish| ==> stop.reason[i] == Lower(finish)[i];
      assert stop.reason == Lower(finish);
    }
  }

  /** The end of a finished candidate: the counts, when there are any, and the stop. */
  ghost predicate FinishSays(v: Value, candidate: Value, called: bool, events: seq<StreamEvent>) {
    if forall finish :: !Has(candidate, "finishReason", Str(finish)) then events == []
    else exists finish, stop ::
      && Has(candidate, "finishReason", Str(finish)) && SaysStop(finish, called, stop)
      && if Lacks(v, "usageMetadata") then events == [Done(stop)]
         else v.Obj? && exists report :: SaysCounts(v.fields["usageMetadata"], report) && events == [UsageDelta(report), Done(stop)]
  }

  lemma FinishRead(v: Value, candidate: Value, called: bool, events: seq<StreamEvent>)
    requires v.Obj? && FinishSays(v, candidate, called, events)
    ensures FinishEvents(v, candidate, called) == events
  {
    hide SaysStop, SaysCounts, StopOfFinish;
    TextRead(candidate, "finishReason");
    if finish :| Has(candidate, "finishReason", Str(finish)) {
      assert OptStr(candidate, "finishReason") == Some(finish) && StrOrEmpty(candidate, "finishReason") == finish;
      var stop :| SaysStop(finish, called, stop) &&
        if Lacks(v, "usageMetadata") then events == [Done(stop)]
        else exists report :: SaysCounts(v.fields["usageMetadata"], report) && events == [UsageDelta(report), Done(stop)];
      StopRead(finish, called, stop);
      if Lacks(v, "usageMetadata") {
        assert [] + [Done(stop)] == [Done(stop)];
      } else {
        var report :| SaysCounts(v.fields["usageMetadata"], report) && events == [UsageDelta(report), Done(stop)];
        CountsRead(v.fields["usageMetadata"], report);
        assert [UsageDelta(report)] + [Done(stop)] == events;
      }
    }
  }

  /** Only the first candidate is read. */
  ghost predicate Candidates(v: Value, candidate: Value) {
    v.Obj? && Holds(v, "candidates") && v.fields["candidates"].Arr? && v.fields["candidates"].items != []
    && v.fields["candidates"].items[0] == candidate
  }

  ghost predicate HasParts(candidate: Value, parts: seq<Value>) {
    exists content :: Has(candidate, "content", content) && Has(content, "parts", Arr(parts))
  }

  ghost predicate PartsAre(candidate: Value, parts: seq<Value>) {
    HasParts(candidate, parts) || (parts == [] && forall some :: !HasParts(candidate, some))
  }

  lemma PartsFound(candidate: Value, parts: seq<Value>)
    requires PartsAre(candidate, parts)
    ensures PartsOf(candidate) == parts
  {
    var content := GetOrNull(candidate, "content");
    if OptArr(content, "parts").Some? {
      assert Has(candidate, "content", content) && Has(content, "parts", Arr(PartsOf(candidate)));
      assert HasParts(candidate, PartsOf(candidate));
    }
  }

  /** The model, said with the first chunk only. */
  ghost predicate OpeningSays(d: SseView, v: Value, opening: seq<StreamEvent>) {
    if d.started then opening == []
    else exists model :: opening == [MessageStart(model)] && TextIs(v, "modelVersion", model)
  }

  lemma OpeningRead(d: SseView, v: Value, opening: seq<StreamEvent>)
    requires OpeningSays(d, v, opening)
    ensures opening == if d.started then [] else [MessageStart(StrOrEmpty(v, "modelVersion"))]
  {
    if model :| opening == [MessageStart(model)] && TextIs(v, "modelVersion", model) {
      TextIsRead(v, "modelVersion", model);
    }
  }

  /** A chunk with a candidate: the model if it is the first, each part in turn, and the finish. */
  lemma ChunkLine(c: Codec, d: SseView, v: Value, candidate: Value, parts: seq<Value>, opening: seq<StreamEvent>,
                  pieces: seq<seq<StreamEvent>>, finish: seq<StreamEvent>)
    requires Lawful(c) && OpeningSays(d, v, opening) && Candidates(v, candidate)
    requires PartsAre(candidate, parts) && PartsSay(c, parts, pieces)
    requires FinishSays(v, candidate, d.toolOpen || SomeCall(pieces), finish)
    ensures DecodedLine(c, d, "data: " + c.show(v)) ==
            (SseView(true, d.toolOpen || SomeCall(pieces)), opening + Joined(pieces) + finish)
  {
    hide OpeningSays, PartsSay, FinishSays, PartsEvents, AnyCall, SomeCall, FinishEvents, Joined;
    DataOfShown(c, v);
    OpeningRead(d, v, opening);
    PartsRead(c, parts, pieces);
    FinishRead(v, candidate, d.toolOpen || SomeCall(pieces), finish);
    PartsFound(candidate, parts);
    assert FirstCandidate(v) == Some(candidate);
  }

  /** A chunk without one gives the model if it is the first, and nothing else. */
  lemma BareLine(c: Codec, d: SseView, v: Value, opening: seq<StreamEvent>)
    requires Lawful(c) && OpeningSays(d, v, opening)
    requires forall candidate :: !Candidates(v, candidate)
    ensures DecodedLine(c, d, "data: " + c.show(v)) == (SseView(true, d.toolOpen), opening)
  {
    hide OpeningSays;
    DataOfShown(c, v);
    OpeningRead(d, v, opening);
    assert FirstCandidate(v).Some? ==> Candidates(v, FirstCandidate(v).value);
  }

  // ---------------------------------------------------------------------
  // A whole stream's counts
  // ---------------------------------------------------------------------

  /** A first candidate that says why it finished. */
  ghost predicate Finishes(v: Value) {
    exists candidate, finish :: Candidates(v, candidate) && Has(candidate, "finishReason", Str(finish))
  }

  /** The counts a chunk reports, none where it reports none. */
  ghost predicate Says(v: Value, report: Usage) {
    if Finishes(v) && !Lacks(v, "usageMetadata") then SaysCounts(v.fields["usageMetadata"], report)
    else report == Usage(0, 0, 0, 0, 0, 0, 0)
  }

  lemma {:induction false} PartsReportNothing(c: Codec, parts: seq<Value>)
    ensures forall e :: e in PartsEvents(c, parts) ==> !e.UsageDelta?
  {
    if parts != [] {
      PartsReportNothing(c, parts[..|parts| - 1]);
    }
  }

  lemma EventsSay(c: Codec, d: SseView, v: Value, a: Fold, report: Usage)
    requires Says(v, report)
    ensures PushedAll(a, DecodedValue(c, d, v).1).usage == Merge(a.usage, report)
  {
    hide SaysCounts, UsageOf, PushedAll, Merge, PartsEvents, StopOfFinish;
    var events := DecodedValue(c, d, v).1;
    var opening := if d.started then [] else [MessageStart(StrOrEmpty(v, "modelVersion"))];
    match FirstCandidate(v) {
      case None => Unreported(a, events);
      case Some(candidate) =>
        assert Candidates(v, candidate);
        TextRead(candidate, "finishReason");
        var parts := PartsOf(candidate);
        var body := PartsEvents(c, parts);
        PartsReportNothing(c, parts);
        assert Finishes(v) <==> OptStr(candidate, "finishReason").Some?;
        if Finishes(v) {
          var done := Done(StopOfFinish(StrOrEmpty(candidate, "finishReason"), d.toolOpen || AnyCall(parts)));
          if Lacks(v, "usageMetadata") {
            assert events == opening + body + ([] + [done]);
            Unreported(a, events);
          } else {
            CountsRead(v.fields["usageMetadata"], report);
            ReportAmong(a, opening + body, report, [done]);
            assert events == opening + body + [UsageDelta(report)] + [done];
          }
        } else {
          assert events == opening + body + [];
          Unreported(a, events);
        }
    }
  }

  /** The usage of a whole upstream text is the field-wise maximum of the counts its chunks report. */
  lemma StreamUsage(c: Codec, frames: seq<Frame>, reports: seq<Usage>, id: string)
    requires Lawful(c) && |reports| == |frames|
    requires forall k :: 0 <= k < |frames| ==> '\n' !in frames[k].event && Says(frames[k].data, reports[k])
    ensures IsMaximum(Meaning(c, GeminiRoundTrip.Decoding(c, Rendered(c, frames)), id).usage, reports)
  {
    hide IsMaximum, PushedAll, DecodeFrames, Merge, DecodedValue;
    forall k | 0 <= k < |frames|
      ensures Adds(ValueDecoder(c), frames[k].data, reports[k])
    {
      forall d, a
        ensures PushedAll(a, DecodedValue(c, d, frames[k].data).1).usage == Merge(a.usage, reports[k])
      {
        EventsSay(c, d, frames[k].data, a, reports[k]);
      }
    }
    GeminiRoundTrip.DecoderReadsData(c);
    DecodeRendered(c, LineDecoder(c), ValueDecoder(c), FRESH_SSE, frames);
    FramesUsage(ValueDecoder(c), FRESH_SSE, frames, reports);
  }
}
