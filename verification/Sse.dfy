/**
 Server-sent-event text: reassembling lines from chunks the way the gateway
 reads an upstream (yb-gateway/src/service.rs), and taking the payload of a
 `data:` line (yb-wire/src/anthropic.rs). Field syntax is section 9.2 of the
 WHATWG HTML Living Standard. Bytes are identified with characters.
 */
module Sse {
  import opened Prelude
  import opened Json
  import opened Ir

  /** Position of the first line feed, or the length when there is none. */
  function LineEnd(s: string): (i: nat)
    ensures i <= |s|
    ensures forall j :: 0 <= j < i ==> s[j] != '\n'
    ensures i < |s| ==> s[i] == '\n'
  {
    if s == [] || s[0] == '\n' then 0 else 1 + LineEnd(s[1..])
  }

  /** The terminated lines of `s`, without their line feeds. */
  function Lines(s: string): seq<string>
    decreases |s|
  {
    var i := LineEnd(s);
    if i == |s| then [] else [s[..i]] + Lines(s[i + 1..])
  }

  /** What follows the last line feed. */
  function Rest(s: string): string
    decreases |s|
  {
    var i := LineEnd(s);
    if i == |s| then s else Rest(s[i + 1..])
  }

  /** Every line the end of the stream leaves to decode. */
  function AllLines(s: string): seq<string> {
    if Rest(s) == [] then Lines(s) else Lines(s) + [Rest(s)]
  }

  /** `trim_end_matches(['\r', '\n'])` */
  function TrimEol(s: string): string {
    if s != [] && (s[|s| - 1] == '\r' || s[|s| - 1] == '\n') then TrimEol(s[..|s| - 1]) else s
  }

  /** The payload of a `data:` line. */
  function Data(line: string): Option<string> {
    if !StartsWith(line, "data:") then None
    else
      var rest := line[5..];
      Some(TrimEnd(if StartsWith(rest, " ") then rest[1..] else rest))
  }

  lemma LineEndUnique(s: string, i: nat)
    requires i <= |s|
    requires forall j :: 0 <= j < i ==> s[j] != '\n'
    requires i < |s| ==> s[i] == '\n'
    ensures LineEnd(s) == i
  {
  }

  /** Cutting the first line off, when there is one. */
  lemma FirstLine(s: string)
    ensures var i := LineEnd(s);
            if i < |s| then Lines(s) == [s[..i]] + Lines(s[i + 1..]) && Rest(s) == Rest(s[i + 1..])
            else Lines(s) == [] && Rest(s) == s
  {
    hide LineEnd;
  }

  /** A terminated line followed by anything. */
  lemma LinesOfOne(line: string, tail: string)
    requires '\n' !in line
    ensures Lines(Line(line, tail)) == [line] + Lines(tail)
    ensures Rest(Line(line, tail)) == Rest(tail)
  {
    var s := Line(line, tail);
    LineEndUnique(s, |line|);
    assert s[..|line|] == line;
    assert s[|line| + 1..] == tail;
  }

  /**
   Cutting the input anywhere leaves the lines as they were: reading on from
   what one chunk left unfinished gives the lines of the whole.
   */
  lemma {:induction false} LinesAcrossCut(a: string, b: string)
    ensures Lines(a + b) == Lines(a) + Lines(Rest(a) + b)
    ensures Rest(a + b) == Rest(Rest(a) + b)
    decreases |a|
  {
    hide LineEnd;
    var i := LineEnd(a);
    if i < |a| {
      LineEndUnique(a + b, i);
      assert (a + b)[..i] == a[..i];
      assert (a + b)[i + 1..] == a[i + 1..] + b;
      LinesAcrossCut(a[i + 1..], b);
    } else {
      assert [] + Lines(a + b) == Lines(a + b);
    }
  }

  /** The payload of a printed frame is the printed value itself. */
  lemma DataOfShown(c: Codec, v: Value)
    requires Lawful(c)
    ensures '\n' !in "data: " + c.show(v)
    ensures TrimEol("data: " + c.show(v)) == "data: " + c.show(v)
    ensures Data("data: " + c.show(v)) == Some(c.show(v))
  {
    assert OneLine(c.show(v));
    PrintedIsNotBlank(c, v);
    var line := "data: " + c.show(v);
    assert line[|line| - 1] == c.show(v)[|c.show(v)| - 1];
    assert line[..5] == "data:";
    assert line[5..] == " " + c.show(v);
    assert (" " + c.show(v))[..1] == " ";
    assert (" " + c.show(v))[1..] == c.show(v);
  }

  // ---------------------------------------------------------------------
  // Frames on the wire, and decoding them line by line
  // ---------------------------------------------------------------------

  /** One event: its name (empty when the dialect writes none) and its payload. */
  datatype Frame = Frame(event: string, data: Value)

  function Line(line: string, tail: string): string {
    line + ['\n'] + tail
  }

  /** The frame's text, written ahead of `tail`. */
  function FrameText(c: Codec, f: Frame, tail: string): string {
    var body := Line("data: " + c.show(f.data), Line("", tail));
    if f.event == "" then body else Line("event: " + f.event, body)
  }

  function Rendered(c: Codec, frames: seq<Frame>): string {
    if frames == [] then "" else FrameText(c, frames[0], Rendered(c, frames[1..]))
  }

  lemma LineAppend(line: string, tail: string, more: string)
    ensures Line(line, tail) + more == Line(line, tail + more)
  {
  }

  lemma FrameTextAppend(c: Codec, f: Frame, tail: string, more: string)
    ensures FrameText(c, f, tail) + more == FrameText(c, f, tail + more)
  {
    var data := "data: " + c.show(f.data);
    LineAppend("", tail, more);
    LineAppend(data, Line("", tail), more);
    LineAppend("event: " + f.event, Line(data, Line("", tail)), more);
  }

  lemma {:induction false} RenderedConcat(c: Codec, xs: seq<Frame>, ys: seq<Frame>)
    ensures Rendered(c, xs + ys) == Rendered(c, xs) + Rendered(c, ys)
  {
    if xs == [] {
      assert xs + ys == ys;
    } else {
      assert (xs + ys)[1..] == xs[1..] + ys;
      RenderedConcat(c, xs[1..], ys);
      FrameTextAppend(c, xs[0], Rendered(c, xs[1..]), Rendered(c, ys));
    }
  }

  lemma RenderedOne(c: Codec, f: Frame)
    ensures Rendered(c, [f]) == FrameText(c, f, "")
  {
    assert [f][1..] == [];
  }

  /** A named frame as the encoder writes it out. */
  lemma NamedFrameText(c: Codec, f: Frame)
    requires f.event != ""
    ensures FrameText(c, f, "") == "event: " + f.event + "\n" + "data: " + c.show(f.data) + "\n\n"
  {
    DataFrameText("data: " + c.show(f.data));
    assert Line("event: " + f.event, Line("data: " + c.show(f.data), Line("", ""))) ==
           "event: " + f.event + "\n" + ("data: " + c.show(f.data) + "\n\n");
  }

  lemma DataFrameText(data: string)
    ensures Line(data, Line("", "")) == data + "\n\n"
  {
    assert Line("", "") == "\n";
  }

  /** A line decoder: its state and a line give the next state and the events. */
  type Decoder<!D> = (D, string) -> (D, seq<StreamEvent>)

  function DecodeLines<D>(dec: Decoder<D>, d: D, lines: seq<string>): (D, seq<StreamEvent>) {
    if lines == [] then (d, [])
    else
      var (d1, first) := dec(d, TrimEol(lines[0]));
      var (d2, others) := DecodeLines(dec, d1, lines[1..]);
      (d2, first + others)
  }

  lemma DecodeOneLine<D>(dec: Decoder<D>, d: D, line: string)
    ensures DecodeLines(dec, d, [line]) == dec(d, TrimEol(line))
  {
    var lines: seq<string> := [line];
    assert lines[1..] == [];
    var (d1, first) := dec(d, TrimEol(line));
    assert first + [] == first;
  }

  lemma {:induction false} DecodeLinesConcat<D>(dec: Decoder<D>, d: D, xs: seq<string>, ys: seq<string>)
    ensures var (d1, first) := DecodeLines(dec, d, xs);
            var (d2, others) := DecodeLines(dec, d1, ys);
            DecodeLines(dec, d, xs + ys) == (d2, first + others)
  {
    if xs == [] {
      assert xs + ys == ys;
      var (_, others) := DecodeLines(dec, d, ys);
      assert [] + others == others;
    } else {
      assert (xs + ys)[1..] == xs[1..] + ys;
      var (d1, first) := dec(d, TrimEol(xs[0]));
      DecodeLinesConcat(dec, d1, xs[1..], ys);
      var (d2, second) := DecodeLines(dec, d1, xs[1..]);
      var (_, third) := DecodeLines(dec, d2, ys);
      assert first + (second + third) == (first + second) + third;
    }
  }

  /** Decoding payloads one by one, without the text between. */
  function DecodeFrames<D>(f: (D, Value) -> (D, seq<StreamEvent>), d: D, frames: seq<Frame>)
    : (D, seq<StreamEvent>)
  {
    if frames == [] then (d, [])
    else
      var (d1, first) := f(d, frames[0].data);
      var (d2, others) := DecodeFrames(f, d1, frames[1..]);
      (d2, first + others)
  }

  lemma {:induction false} DecodeFramesConcat<D>(
    f: (D, Value) -> (D, seq<StreamEvent>), d: D, xs: seq<Frame>, ys: seq<Frame>)
    ensures var (d1, first) := DecodeFrames(f, d, xs);
            var (d2, others) := DecodeFrames(f, d1, ys);
            DecodeFrames(f, d, xs + ys) == (d2, first + others)
  {
    if xs == [] {
      assert xs + ys == ys;
      var (_, others) := DecodeFrames(f, d, ys);
      assert [] + others == others;
    } else {
      assert (xs + ys)[1..] == xs[1..] + ys;
      var (d1, first) := f(d, xs[0].data);
      DecodeFramesConcat(f, d1, xs[1..], ys);
      var (d2, second) := DecodeFrames(f, d1, xs[1..]);
      var (_, third) := DecodeFrames(f, d2, ys);
      assert first + (second + third) == (first + second) + third;
    }
  }

  /** A line decoder that reads payloads with `f` and skips every other line. */
  ghost predicate ReadsData<D(!new)>(c: Codec, dec: Decoder<D>, f: (D, Value) -> (D, seq<StreamEvent>)) {
    && (forall d, line :: Data(line) == None ==> dec(d, line) == (d, []))
    && (forall d, line, v :: Data(line) == Some(c.show(v)) ==> dec(d, line) == f(d, v))
  }

  /** The lines one frame is written as. */
  function FrameLineList(c: Codec, f: Frame): seq<string> {
    var body := ["data: " + c.show(f.data)] + [""];
    if f.event == "" then body else ["event: " + f.event] + body
  }

  lemma BodyLines(data: string, tail: string)
    requires '\n' !in data
    ensures Lines(Line(data, Line("", tail))) == ([data] + [""]) + Lines(tail)
    ensures Rest(Line(data, Line("", tail))) == Rest(tail)
  {
    LinesOfOne("", tail);
    LinesOfOne(data, Line("", tail));
    ConcatAssoc([data], [""], Lines(tail));
  }

  lemma FrameLines(c: Codec, f: Frame, tail: string)
    requires Lawful(c)
    requires '\n' !in f.event
    ensures Lines(FrameText(c, f, tail)) == FrameLineList(c, f) + Lines(tail)
    ensures Rest(FrameText(c, f, tail)) == Rest(tail)
  {
    DataOfShown(c, f.data);
    var data := "data: " + c.show(f.data);
    BodyLines(data, tail);
    if f.event != "" {
      var name := "event: " + f.event;
      LinesOfOne(name, Line(data, Line("", tail)));
      ConcatAssoc([name], [data] + [""], Lines(tail));
    }
  }

  lemma DecodeBlank<D(!new)>(c: Codec, dec: Decoder<D>, f: (D, Value) -> (D, seq<StreamEvent>), d: D)
    requires ReadsData(c, dec, f)
    ensures DecodeLines(dec, d, [""]) == (d, [])
  {
    assert [""][1..] == [];
    assert Data([]) == None && TrimEol([]) == [];
    assert dec(d, TrimEol("")) == (d, []);
    var none: seq<StreamEvent> := [];
    assert none + none == none;
  }

  lemma DecodeName<D(!new)>(c: Codec, dec: Decoder<D>, f: (D, Value) -> (D, seq<StreamEvent>), d: D, name: string)
    requires ReadsData(c, dec, f)
    ensures DecodeLines(dec, d, ["event: " + name]) == (d, [])
  {
    var line: string := "event: " + name;
    assert line[0] == 'e';
    var lines: seq<string> := [line];
    assert lines[1..] == [];
    TrimEolKeepsHead(line);
    assert dec(d, TrimEol(line)) == (d, []);
    var none: seq<StreamEvent> := [];
    assert none + none == none;
  }

  lemma DecodeData<D(!new)>(c: Codec, dec: Decoder<D>, f: (D, Value) -> (D, seq<StreamEvent>), d: D, v: Value)
    requires Lawful(c) && ReadsData(c, dec, f)
    ensures DecodeLines(dec, d, ["data: " + c.show(v)]) == f(d, v)
  {
    DataOfShown(c, v);
    var line: string := "data: " + c.show(v);
    var lines: seq<string> := [line];
    assert lines[1..] == [];
    assert dec(d, TrimEol(line)) == f(d, v);
    assert f(d, v).1 + [] == f(d, v).1;
  }

  lemma DecodeOneFrame<D(!new)>(c: Codec, dec: Decoder<D>, f: (D, Value) -> (D, seq<StreamEvent>), d: D, frame: Frame)
    requires Lawful(c) && ReadsData(c, dec, f)
    ensures DecodeLines(dec, d, FrameLineList(c, frame)) == f(d, frame.data)
  {
    var data, blank := ["data: " + c.show(frame.data)], [""];
    var (d1, events) := f(d, frame.data);
    DecodeData(c, dec, f, d, frame.data);
    DecodeBlank(c, dec, f, d1);
    DecodeLinesConcat(dec, d, data, blank);
    assert events + [] == events && [] + events == events;
    if frame.event != "" {
      DecodeName(c, dec, f, d, frame.event);
      DecodeLinesConcat(dec, d, ["event: " + frame.event], data + blank);
    }
  }

  lemma {:induction false} TrimEolKeepsHead(name: string)
    requires |name| >= 1 && name[0] == 'e'
    ensures Data(TrimEol(name)) == None
    decreases |name|
  {
    if name[|name| - 1] == '\r' || name[|name| - 1] == '\n' {
      TrimEolKeepsHead(name[..|name| - 1]);
    }
  }

  /** Reading rendered text line by line is reading its payloads in order. */
  lemma {:induction false} DecodeRendered<D(!new)>(
    c: Codec, dec: Decoder<D>, f: (D, Value) -> (D, seq<StreamEvent>), d: D, frames: seq<Frame>)
    requires Lawful(c) && ReadsData(c, dec, f)
    requires forall i :: 0 <= i < |frames| ==> '\n' !in frames[i].event
    ensures Rest(Rendered(c, frames)) == ""
    ensures DecodeLines(dec, d, Lines(Rendered(c, frames))) == DecodeFrames(f, d, frames)
    decreases |frames|
  {
    if frames != [] {
      var tail := Rendered(c, frames[1..]);
      FrameLines(c, frames[0], tail);
      DecodeOneFrame(c, dec, f, d, frames[0]);
      DecodeLinesConcat(dec, d, FrameLineList(c, frames[0]), Lines(tail));
      DecodeRendered(c, dec, f, f(d, frames[0].data).0, frames[1..]);
    }
  }
}
