/**
 What both upstream dialects' readings are stated with: the fields of a JSON object,
 the numbers they count, and the largest of the counts a stream reports.
 */
module Reading {
  import opened Prelude
  import opened Json
  import opened Ir
  import opened Aggregate
  import opened Sse

  ghost predicate Has(v: Value, key: string, x: Value) {
    v.Obj? && key in v.fields && v.fields[key] == x
  }

  ghost predicate Holds(v: Value, key: string) {
    v.Obj? && key in v.fields
  }

  ghost predicate Lacks(v: Value, key: string) {
    v.Obj? ==> key !in v.fields || v.fields[key] == Null
  }

  /** The field is a whole number of 64 bits, of which 32 are kept; anything else counts nothing. */
  ghost predicate Counts(v: Value, key: string, n: U32) {
    if v.Obj? && key in v.fields && v.fields[key].Int? && 0 <= v.fields[key].n < 0x1_0000_0000_0000_0000
    then n == v.fields[key].n % 0x1_0000_0000
    else n == 0
  }

  lemma CountRead(v: Value, key: string, n: U32)
    requires Counts(v, key, n)
    ensures U32OrZero(v, key) == n
  {
  }

  /** The field's text, empty where there is none. */
  ghost predicate TextIs(v: Value, key: string, text: string) {
    Has(v, key, Str(text)) || (text == "" && forall s :: !Has(v, key, Str(s)))
  }

  lemma TextIsRead(v: Value, key: string, text: string)
    requires TextIs(v, key, text)
    ensures StrOrEmpty(v, key) == text
  {
    TextRead(v, key);
  }

  lemma TextRead(v: Value, key: string)
    ensures OptStr(v, key).Some? <==> exists s :: Has(v, key, Str(s))
    ensures forall s :: OptStr(v, key) == Some(s) <==> Has(v, key, Str(s))
  {
  }

  /** No report is larger, and one is as large unless nothing was counted. */
  ghost predicate IsLargest(n: U32, reports: seq<Usage>, field: Usage -> U32) {
    && (forall k :: 0 <= k < |reports| ==> field(reports[k]) <= n)
    && (n == 0 || exists k :: 0 <= k < |reports| && field(reports[k]) == n)
  }

  ghost predicate IsMaximum(u: Usage, reports: seq<Usage>) {
    && IsLargest(u.input, reports, (r: Usage) => r.input)
    && IsLargest(u.output, reports, (r: Usage) => r.output)
    && IsLargest(u.cacheRead, reports, (r: Usage) => r.cacheRead)
    && IsLargest(u.cacheWrite, reports, (r: Usage) => r.cacheWrite)
    && u.reasoning == 0 && u.promptMs == 0 && u.generationMs == 0
  }

  lemma LargestOfMore(n: U32, reports: seq<Usage>, more: Usage, field: Usage -> U32)
    requires IsLargest(n, reports, field)
    ensures IsLargest(Max(n, field(more)), reports + [more], field)
  {
    var all := reports + [more];
    assert all[|reports|] == more;
    assert forall k :: 0 <= k < |reports| ==> all[k] == reports[k];
  }

  lemma MaximumOfMore(u: Usage, reports: seq<Usage>, more: Usage)
    requires IsMaximum(u, reports)
    requires more.reasoning == 0 && more.promptMs == 0 && more.generationMs == 0
    ensures IsMaximum(Merge(u, more), reports + [more])
  {
    hide IsLargest;
    LargestOfMore(u.input, reports, more, (r: Usage) => r.input);
    LargestOfMore(u.output, reports, more, (r: Usage) => r.output);
    LargestOfMore(u.cacheRead, reports, more, (r: Usage) => r.cacheRead);
    LargestOfMore(u.cacheWrite, reports, more, (r: Usage) => r.cacheWrite);
  }

  /** Reading this payload folds in these counts and no others. */
  ghost predicate Adds<D(!new)>(f: (D, Value) -> (D, seq<StreamEvent>), v: Value, more: Usage) {
    && more.reasoning == 0 && more.promptMs == 0 && more.generationMs == 0
    && forall d, a :: PushedAll(a, f(d, v).1).usage == Merge(a.usage, more)
  }

  lemma {:induction false} FramesUsage<D(!new)>(
    f: (D, Value) -> (D, seq<StreamEvent>), d: D, frames: seq<Frame>, reports: seq<Usage>)
    requires |reports| == |frames| && forall k :: 0 <= k < |frames| ==> Adds(f, frames[k].data, reports[k])
    ensures IsMaximum(PushedAll(EMPTY, DecodeFrames(f, d, frames).1).usage, reports)
    decreases |frames|
  {
    hide Adds, IsMaximum, PushedAll;
    if frames == [] {
      NothingReported(f, d);
    } else {
      var n := |frames| - 1;
      FramesUsage(f, d, frames[..n], reports[..n]);
      var (d1, events) := DecodeFrames(f, d, frames[..n]);
      assert frames == frames[..n] + [frames[n]] && reports == reports[..n] + [reports[n]];
      DecodeFramesConcat(f, d, frames[..n], [frames[n]]);
      OneFrame(f, d1, frames[n]);
      PushedAllConcat(EMPTY, events, f(d1, frames[n].data).1);
      AddsOnce(f, d1, frames[n].data, PushedAll(EMPTY, events), reports[n]);
      MaximumOfMore(PushedAll(EMPTY, events).usage, reports[..n], reports[n]);
    }
  }

  lemma AddsOnce<D(!new)>(f: (D, Value) -> (D, seq<StreamEvent>), d: D, v: Value, a: Fold, more: Usage)
    requires Adds(f, v, more)
    ensures PushedAll(a, f(d, v).1).usage == Merge(a.usage, more)
    ensures more.reasoning == 0 && more.promptMs == 0 && more.generationMs == 0
  {
  }

  lemma OneFrame<D(!new)>(f: (D, Value) -> (D, seq<StreamEvent>), d: D, frame: Frame)
    ensures DecodeFrames(f, d, [frame]) == f(d, frame.data)
  {
    assert [frame][1..] == [];
    assert f(d, frame.data).1 + [] == f(d, frame.data).1;
  }

  lemma NothingReported<D(!new)>(f: (D, Value) -> (D, seq<StreamEvent>), d: D)
    ensures IsMaximum(PushedAll(EMPTY, DecodeFrames(f, d, []).1).usage, [])
  {
  }

  /** One report among other events. */
  lemma {:induction false} ReportAmong(a: Fold, before: seq<StreamEvent>, u: Usage, after: seq<StreamEvent>)
    requires forall e :: e in before || e in after ==> !e.UsageDelta?
    ensures PushedAll(a, before + [UsageDelta(u)] + after).usage == Merge(a.usage, u)
  {
    Unreported(a, before);
    PushedSnoc(a, before, UsageDelta(u));
    PushedAllConcat(a, before + [UsageDelta(u)], after);
    Unreported(PushedAll(a, before + [UsageDelta(u)]), after);
  }

  lemma {:induction false} Unreported(a: Fold, events: seq<StreamEvent>)
    requires forall e :: e in events ==> !e.UsageDelta?
    ensures PushedAll(a, events).usage == a.usage == Merge(a.usage, NO_USAGE)
  {
    if events != [] {
      Unreported(a, events[..|events| - 1]);
    }
  }

  // ---------------------------------------------------------------------
  // Lines
  // ---------------------------------------------------------------------

  /** A data line's payload, with or without the space; space at its end does not count. */
  lemma DataLine(payload: string, after: string)
    requires payload != "" && payload[0] != ' ' && !IsSpace(payload[|payload| - 1])
    requires forall i :: 0 <= i < |after| ==> IsSpace(after[i])
    ensures Data("data:" + (payload + after)) == Data("data: " + (payload + after)) == Some(payload)
  {
    var all := payload + after;
    assert all[0] == payload[0];
    TrimmedPayload(payload, after);
    hide TrimEnd;
    AfterColon(all);
  }

  lemma AfterColon(all: string)
    requires all != "" && all[0] != ' '
    ensures Data("data:" + all) == Data("data: " + all) == Some(TrimEnd(all))
  {
    hide TrimEnd;
    var tight, spaced := "data:" + all, "data: " + all;
    assert tight[..5] == "data:" && tight[5..] == all;
    assert spaced[..5] == "data:" && spaced[5..] == " " + all;
    assert (" " + all)[..1] == " " && (" " + all)[1..] == all;
    assert StartsWith(all, " ") <==> " " == all[..1];
  }

  lemma {:induction false} TrimmedPayload(payload: string, after: string)
    requires payload != "" && !IsSpace(payload[|payload| - 1])
    requires forall i :: 0 <= i < |after| ==> IsSpace(after[i])
    ensures TrimEnd(payload + after) == payload
    decreases |after|
  {
    var all := payload + after;
    if after == "" {
      assert all == payload;
    } else {
      assert all[..|all| - 1] == payload + after[..|after| - 1];
      assert all[|all| - 1] == after[|after| - 1];
      TrimmedPayload(payload, after[..|after| - 1]);
    }
  }

  /** No other line has one. */
  lemma OtherLine(line: string)
    ensures Data(line).Some? <==> |line| >= 5 && line[..5] == "data:"
  {
  }

  /** A carriage return before the line feed makes no difference. */
  lemma CarriageDropped<D>(dec: Decoder<D>, d: D, line: string)
    ensures DecodeLines(dec, d, [line + "\r"]) == DecodeLines(dec, d, [line])
  {
    assert (line + "\r")[..|line|] == line;
    assert [line + "\r"][1..] == [line][1..];
  }

  // ---------------------------------------------------------------------
  // Space
  // ---------------------------------------------------------------------

  /** The code points of Unicode's White_Space. */
  lemma SpaceIs(c: char)
    ensures var n := c as int;
            IsSpace(c) <==>
              || 9 <= n <= 13 || n == 32 || n == 133 || n == 160 || n == 5760
              || 8192 <= n <= 8202 || n == 8232 || n == 8233 || n == 8239 || n == 8287 || n == 12288
  {
  }

  /** A text is blank if and only if nothing is left of it once trimmed. */
  lemma BlankIff(s: string)
    ensures Blank(s) <==> Trim(s) == ""
  {
    hide IsSpace, TrimStart, TrimEnd;
    StartIsBlank(s);
    NothingEnds(TrimStart(s));
  }

  lemma NothingEnds(rest: string)
    requires rest == "" || !IsSpace(rest[0])
    ensures TrimEnd(rest) == "" <==> rest == ""
  {
    hide IsSpace;
  }

  lemma {:induction false} StartIsBlank(s: string)
    ensures Blank(s) <==> TrimStart(s) == ""
    decreases |s|
  {
    hide IsSpace;
    if s != "" {
      StartIsBlank(s[1..]);
      assert forall i :: 1 <= i < |s| ==> s[i] == s[1..][i - 1];
      assert Blank(s) <==> IsSpace(s[0]) && Blank(s[1..]);
    }
  }
}
