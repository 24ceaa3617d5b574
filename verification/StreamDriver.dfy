/**
 Driving a stream through a decoder and an encoder (yb-gateway/src/service.rs):
 chunks cut anywhere are reassembled into lines, what comes out is recorded
 exactly once, and neither depends on where the cuts fall.
 */
module StreamDriver {
  import opened Prelude
  import opened Ir
  import opened Aggregate
  import opened Sse

  /** The two dialects a stream runs between: a line decoder, an encoder of one
      event, the bytes the encoder still owes at the end, and the test for bytes
      that end the client's answer. */
  datatype Wire<!D, !E> = Wire(
    decode: Decoder<D>,
    encode: (E, StreamEvent) -> (E, string),
    owed: E -> string,
    ends: (string, seq<StreamEvent>) -> bool)

  function Encode<D, E>(w: Wire<D, E>, e: E, events: seq<StreamEvent>): (E, string) {
    if events == [] then (e, "")
    else
      var (e1, before) := Encode(w, e, events[..|events| - 1]);
      var (e2, bytes) := w.encode(e1, events[|events| - 1]);
      (e2, before + bytes)
  }

  lemma {:induction false} EncodeConcat<D, E>(w: Wire<D, E>, e: E, xs: seq<StreamEvent>, ys: seq<StreamEvent>)
    ensures var (e1, first) := Encode(w, e, xs);
            var (e2, second) := Encode(w, e1, ys);
            Encode(w, e, xs + ys) == (e2, first + second)
    decreases |ys|
  {
    if ys == [] {
      assert xs + ys == xs;
      assert Encode(w, e, xs).1 + "" == Encode(w, e, xs).1;
    } else {
      var n := |ys| - 1;
      assert (xs + ys)[..|xs + ys| - 1] == xs + ys[..n];
      EncodeConcat(w, e, xs, ys[..n]);
      var (e1, first) := Encode(w, e, xs);
      var (e2, second) := Encode(w, e1, ys[..n]);
      ConcatAssoc(first, second, w.encode(e2, ys[n]).1);
    }
  }

  /** What the upstream hands over. */
  datatype Item = Chunk(bytes: string) | Failed | Ended

  /** How a turn is filed: complete, broken off by the upstream, or abandoned (499). */
  datatype Outcome = Complete | BrokenOff | Abandoned

  datatype Record = Record(usage: Usage, outcome: Outcome, fold: Fold, bytes: nat)

  /** What the client sees of one iteration. */
  datatype Yield = Silent | Bytes(bytes: string) | Error | Over

  datatype State<!D, !E> = State(
    buf: string, decoder: D, encoder: E, usage: Usage, agg: Fold, bytes: nat,
    done: bool, recorded: bool, records: seq<Record>)

  function Initial<D, E>(d: D, e: E): State<D, E> {
    State("", d, e, NO_USAGE, EMPTY, 0, false, false, [])
  }

  // ---------------------------------------------------------------------
  // The specification: what the received text alone determines
  // ---------------------------------------------------------------------

  function TextOf(items: seq<Item>): string {
    if items == [] then ""
    else
      var last := items[|items| - 1];
      TextOf(items[..|items| - 1]) + if last.Chunk? then last.bytes else ""
  }

  /** The events of the complete lines of `text`. */
  function EventsOf<D, E>(w: Wire<D, E>, d: D, text: string): seq<StreamEvent> {
    DecodeLines(w.decode, d, Lines(text)).1
  }

  /** The bytes a fresh encoder gives for the complete lines of `text`. */
  function OutputOf<D, E>(w: Wire<D, E>, d: D, e: E, text: string): string {
    Encode(w, e, EventsOf(w, d, text)).1
  }

  /** The same at the end of the stream, where an unterminated line counts too. */
  function FinalEvents<D, E>(w: Wire<D, E>, d: D, text: string): seq<StreamEvent> {
    DecodeLines(w.decode, d, AllLines(text)).1
  }

  function FinalOutput<D, E>(w: Wire<D, E>, d: D, e: E, text: string): string {
    var (e1, bytes) := Encode(w, e, FinalEvents(w, d, text));
    bytes + w.owed(e1)
  }

  /** Whether `more`, arriving after `text`, carries the end of the answer. */
  predicate CarriesEnd<D, E>(w: Wire<D, E>, d: D, e: E, text: string, more: string) {
    var (d1, before) := DecodeLines(w.decode, d, Lines(text));
    var newer := DecodeLines(w.decode, d1, Lines(Rest(text) + more)).1;
    var out := Encode(w, Encode(w, e, before).0, newer).1;
    out != "" && w.ends(out, newer)
  }

  /** Whether the run is over once `item` has come after `before`. */
  predicate Stops<D, E>(w: Wire<D, E>, d: D, e: E, before: seq<Item>, item: Item) {
    item.Chunk? ==> CarriesEnd(w, d, e, TextOf(before), item.bytes)
  }

  /** The number of items a run reads before it is over, all of them if it never is. */
  function Reads<D, E>(w: Wire<D, E>, d: D, e: E, items: seq<Item>): (n: nat)
    ensures n <= |items|
  {
    if items == [] then 0
    else
      var m := |items| - 1;
      var earlier := Reads(w, d, e, items[..m]);
      if IsOver(w, d, e, items[..m]) then earlier else |items|
  }

  /** Whether some item ends the run. */
  predicate IsOver<D, E>(w: Wire<D, E>, d: D, e: E, items: seq<Item>) {
    exists i :: 0 <= i < |items| && Stops(w, d, e, items[..i], items[i])
  }

  /** The one record a run leaves, from what it read and how it ended. */
  function Verdict<D, E>(w: Wire<D, E>, d: D, e: E, items: seq<Item>): Record {
    var read := items[..Reads(w, d, e, items)];
    var text := TextOf(read);
    var fold := PushedAll(EMPTY, EventsOf(w, d, text));
    var bytes := |OutputOf(w, d, e, text)|;
    if !IsOver(w, d, e, items) || read == [] then Record(fold.usage, Abandoned, fold, bytes)
    else
      match read[|read| - 1]
      case Chunk(_) => Record(fold.usage, Complete, fold, bytes)
      case Failed => Record(fold.usage, BrokenOff, fold, bytes)
      case Ended =>
        var all := PushedAll(EMPTY, FinalEvents(w, d, text));
        Record(all.usage, Complete, all, |FinalOutput(w, d, e, text)|)
  }

  // ---------------------------------------------------------------------
  // One iteration of the loop, and dropping the stream
  // ---------------------------------------------------------------------

  /** Files the turn, taking the aggregate, which later reads as empty. */
  function Filed<D, E>(s: State<D, E>, outcome: Outcome): State<D, E> {
    s.(records := s.records + [Record(s.usage, outcome, s.agg, s.bytes)], agg := EMPTY, recorded := true, done := true)
  }

  function MergeAll(u: Usage, events: seq<StreamEvent>): Usage {
    if events == [] then u
    else
      var e := events[|events| - 1];
      var before := MergeAll(u, events[..|events| - 1]);
      if e.UsageDelta? then Merge(before, e.usage) else before
  }

  /** Takes in lines: decodes them, and folds their usage and events. */
  function Absorbed<D, E>(w: Wire<D, E>, s: State<D, E>, lines: seq<string>, rest: string): (State<D, E>, seq<StreamEvent>) {
    var (d1, events) := DecodeLines(w.decode, s.decoder, lines);
    (s.(buf := rest, decoder := d1, usage := MergeAll(s.usage, events), agg := PushedAll(s.agg, events)), events)
  }

  /** A chunk taken in and encoded: the state, the bytes and the events they carry. */
  function ChunkRead<D, E>(w: Wire<D, E>, s: State<D, E>, chunk: string): (State<D, E>, string, seq<StreamEvent>) {
    var text := s.buf + chunk;
    var (s1, events) := Absorbed(w, s, Lines(text), Rest(text));
    var (e1, out) := Encode(w, s1.encoder, events);
    (s1.(encoder := e1, bytes := s1.bytes + |out|), out, events)
  }

  function OnChunk<D, E>(w: Wire<D, E>, s: State<D, E>, chunk: string): (State<D, E>, Yield) {
    var (s2, out, events) := ChunkRead(w, s, chunk);
    if out == "" then (s2, Silent)
    else if !s.recorded && w.ends(out, events) then (Filed(s2, Complete), Bytes(out))
    else (s2, Bytes(out))
  }

  function OnEnd<D, E>(w: Wire<D, E>, s: State<D, E>): (State<D, E>, Yield) {
    var lines := if s.buf == "" then [] else [s.buf];
    var (s1, events) := Absorbed(w, s, lines, "");
    var (e1, out) := Encode(w, s1.encoder, events);
    var all := out + w.owed(e1);
    (Filed(s1.(encoder := e1, bytes := s1.bytes + |all|), Complete), Bytes(all))
  }

  function Iterated<D, E>(w: Wire<D, E>, s: State<D, E>, item: Item): (State<D, E>, Yield) {
    if s.done then (if s.recorded then s else Filed(s, Complete), Over)
    else
      match item
      case Chunk(bytes) => OnChunk(w, s, bytes)
      case Failed => (Filed(s, BrokenOff), Error)
      case Ended => OnEnd(w, s)
  }

  function Dropped<D, E>(s: State<D, E>): State<D, E> {
    if s.recorded then s else Filed(s, Abandoned)
  }

  /** A run over the items: the state and every byte yielded. */
  function Run<D, E>(w: Wire<D, E>, d: D, e: E, items: seq<Item>): (State<D, E>, string) {
    if items == [] then (Initial(d, e), "")
    else
      var (s, sent) := Run(w, d, e, items[..|items| - 1]);
      var (s1, y) := Iterated(w, s, items[|items| - 1]);
      (s1, if y.Bytes? then sent + y.bytes else sent)
  }

  // ---------------------------------------------------------------------
  // The state held in place
  // ---------------------------------------------------------------------

  class StreamState<!D(==), !E(==)> {
    const w: Wire<D, E>
    var buf: string
    var decoder: D
    var encoder: E
    var usage: Usage
    var agg: Fold
    var responseBytes: nat
    var done: bool
    var recorded: bool
    /** What the turn's record context has been told to file. */
    var records: seq<Record>

    ghost function View(): State<D, E>
      reads this
    {
      State(buf, decoder, encoder, usage, agg, responseBytes, done, recorded, records)
    }

    constructor (w: Wire<D, E>, d: D, e: E)
      ensures this.w == w && View() == Initial(d, e)
    {
      this.w := w;
      buf, decoder, encoder, usage, agg, responseBytes := "", d, e, NO_USAGE, EMPTY, 0;
      done, recorded, records := false, false, [];
    }

    method Finish(outcome: Outcome)
      modifies this
      ensures View() == old(View()).(records := old(records) + [Record(old(usage), outcome, old(agg), old(responseBytes))], agg := EMPTY)
    {
      records := records + [Record(usage, outcome, agg, responseBytes)];
      agg := EMPTY;
    }

    /** Decodes one line and folds what it says. */
    method TakeLine(line: string) returns (events: seq<StreamEvent>)
      modifies this
      ensures (View(), events) == Absorbed(w, old(View()), [line], old(buf))
    {
      var (d1, evs) := w.decode(decoder, TrimEol(line));
      decoder, events := d1, evs;
      for i := 0 to |events|
        invariant View() == old(View()).(decoder := d1, usage := MergeAll(old(usage), events[..i]))
      {
        if events[i].UsageDelta? {
          usage := Merge(usage, events[i].usage);
        }
        assert events[..i + 1][..i] == events[..i];
      }
      assert events[..|events|] == events;
      agg := PushedAll(agg, events);
      DecodeOneLine(w.decode, old(decoder), line);
    }

    /** Cuts off and takes in every complete line of the buffer. */
    method DrainLines() returns (events: seq<StreamEvent>)
      modifies this
      ensures (View(), events) == Absorbed(w, old(View()), Lines(old(buf)), Rest(old(buf)))
    {
      hide Lines, Rest, DecodeLines, PushedAll, MergeAll;
      events := [];
      ghost var taken: seq<string> := [];
      AbsorbedNothing(w, old(View()));
      while LineEnd(buf) < |buf|
        invariant Lines(old(buf)) == taken + Lines(buf) && Rest(old(buf)) == Rest(buf)
        invariant (View(), events) == Absorbed(w, old(View()), taken, buf)
        decreases |buf|
      {
        var pos := LineEnd(buf);
        FirstLine(buf);
        var line := buf[..pos];
        ConcatAssoc(taken, [line], Lines(buf[pos + 1..]));
        buf := buf[pos + 1..];
        AbsorbedSnoc(w, old(View()), taken, line, buf);
        var more := TakeLine(line);
        events := events + more;
        taken := taken + [line];
      }
      FirstLine(buf);
      assert taken + [] == taken;
    }

    /** One pass of the loop a poll runs. */
    method Iterate(item: Item) returns (y: Yield)
      modifies this
      ensures (View(), y) == Iterated(w, old(View()), item)
    {
      hide Lines, Rest, DecodeLines, PushedAll, MergeAll, Encode;
      if done {
        if !recorded {
          Finish(Complete);
          recorded := true;
        }
        return Over;
      }
      match item {
        case Chunk(bytes) => y := ReadChunk(bytes);
        case Failed =>
          done := true;
          Finish(BrokenOff);
          recorded := true;
          y := Error;
        case Ended => y := ReadEnd();
      }
    }

    method ReadChunk(chunk: string) returns (y: Yield)
      modifies this
      ensures (View(), y) == OnChunk(w, old(View()), chunk)
    {
      hide Lines, Rest, DecodeLines, PushedAll, MergeAll;
      buf := buf + chunk;
      var events := DrainLines();
      if events == [] { return Silent; }
      var (e1, out) := Encode(w, encoder, events);
      encoder := e1;
      if out == "" { return Silent; }
      responseBytes := responseBytes + |out|;
      if !recorded && w.ends(out, events) {
        Finish(Complete);
        recorded, done := true, true;
      }
      y := Bytes(out);
    }

    method ReadEnd() returns (y: Yield)
      modifies this
      ensures (View(), y) == OnEnd(w, old(View()))
    {
      hide Lines, Rest, DecodeLines, PushedAll, MergeAll;
      AbsorbedNothing(w, View());
      var events := [];
      if buf != "" {
        var line := buf;
        buf := "";
        events := TakeLine(line);
      }
      done := true;
      var (e1, out) := Encode(w, encoder, events);
      encoder := e1;
      out := out + w.owed(e1);
      responseBytes := responseBytes + |out|;
      Finish(Complete);
      recorded := true;
      y := Bytes(out);
    }

    /** The client let go of the stream. */
    method Drop()
      modifies this
      ensures View().records == Dropped(old(View())).records
    {
      if recorded { return; }
      Finish(Abandoned);
    }
  }

  lemma AbsorbedNothing<D, E>(w: Wire<D, E>, s: State<D, E>)
    ensures Absorbed(w, s, [], s.buf) == (s, [])
  {
  }

  lemma {:induction false} MergeAllConcat(u: Usage, xs: seq<StreamEvent>, ys: seq<StreamEvent>)
    ensures MergeAll(u, xs + ys) == MergeAll(MergeAll(u, xs), ys)
  {
    if ys == [] {
      assert xs + ys == xs;
    } else {
      assert (xs + ys)[..|xs + ys| - 1] == xs + ys[..|ys| - 1];
      MergeAllConcat(u, xs, ys[..|ys| - 1]);
    }
  }

  lemma AbsorbedConcat<D, E>(w: Wire<D, E>, s: State<D, E>, xs: seq<string>, ys: seq<string>, mid: string, rest: string)
    ensures var (s1, first) := Absorbed(w, s, xs, mid);
            var (s2, second) := Absorbed(w, s1, ys, rest);
            Absorbed(w, s, xs + ys, rest) == (s2, first + second)
  {
    var (s1, first) := Absorbed(w, s, xs, mid);
    DecodeLinesConcat(w.decode, s.decoder, xs, ys);
    var second := DecodeLines(w.decode, s1.decoder, ys).1;
    MergeAllConcat(s.usage, first, second);
    PushedAllConcat(s.agg, first, second);
  }

  lemma AbsorbedSnoc<D, E>(w: Wire<D, E>, s: State<D, E>, xs: seq<string>, line: string, rest: string)
    ensures var (s1, first) := Absorbed(w, s, xs, rest);
            var (s2, second) := Absorbed(w, s1, [line], rest);
            Absorbed(w, s, xs + [line], rest) == (s2, first + second)
  {
    AbsorbedConcat(w, s, xs, [line], rest, rest);
  }

  // ---------------------------------------------------------------------
  // Every run leaves exactly one record, and it is the right one
  // ---------------------------------------------------------------------

  lemma {:induction false} UsageTracksFold(a: Fold, events: seq<StreamEvent>)
    ensures PushedAll(a, events).usage == MergeAll(a.usage, events)
  {
    if events != [] {
      UsageTracksFold(a, events[..|events| - 1]);
    }
  }

  predicate Within(u: Usage, bound: Usage) {
    && u.input <= bound.input && u.output <= bound.output && u.cacheRead <= bound.cacheRead
    && u.cacheWrite <= bound.cacheWrite && u.reasoning <= bound.reasoning
    && u.promptMs <= bound.promptMs && u.generationMs <= bound.generationMs
  }

  predicate Bounds(events: seq<StreamEvent>, bound: Usage) {
    forall i :: 0 <= i < |events| && events[i].UsageDelta? ==> Within(events[i].usage, bound)
  }

  /** The folded usage is the least report no smaller than any that came: the field-wise maximum. */
  lemma {:induction false} UsageIsMaximum(events: seq<StreamEvent>, bound: Usage)
    ensures Bounds(events, MergeAll(NO_USAGE, events))
    ensures Bounds(events, bound) ==> Within(MergeAll(NO_USAGE, events), bound)
  {
    if events != [] {
      var n := |events| - 1;
      UsageIsMaximum(events[..n], bound);
      assert forall i :: 0 <= i < n ==> events[..n][i] == events[i];
    }
  }

  /** A run not yet over: everything is what the text so far determines. */
  ghost predicate Live<D, E>(w: Wire<D, E>, d: D, e: E, text: string, s: State<D, E>, sent: string) {
    var (d1, events) := DecodeLines(w.decode, d, Lines(text));
    && !s.done && !s.recorded && s.records == []
    && s.buf == Rest(text) && s.decoder == d1
    && s.agg == PushedAll(EMPTY, events) && s.usage == s.agg.usage
    && (s.encoder, sent) == Encode(w, e, events)
    && s.bytes == |sent|
  }

  /** Taking in more lines keeps a run live, as far as the encoder's turn. */
  lemma AbsorbLive<D, E>(w: Wire<D, E>, d: D, e: E, text: string, more: seq<string>, s: State<D, E>, sent: string)
    requires Live(w, d, e, text, s, sent)
    ensures var (d1, events) := DecodeLines(w.decode, d, Lines(text));
            var (d2, newer) := DecodeLines(w.decode, d1, more);
            var (e2, out) := Encode(w, s.encoder, newer);
            && DecodeLines(w.decode, d, Lines(text) + more) == (d2, events + newer)
            && PushedAll(EMPTY, events + newer) == PushedAll(s.agg, newer)
            && MergeAll(s.usage, newer) == PushedAll(s.agg, newer).usage
            && Encode(w, e, events + newer) == (e2, sent + out)
  {
    var (d1, events) := DecodeLines(w.decode, d, Lines(text));
    var newer := DecodeLines(w.decode, d1, more).1;
    DecodeLinesConcat(w.decode, d, Lines(text), more);
    PushedAllConcat(EMPTY, events, newer);
    UsageTracksFold(s.agg, newer);
    EncodeConcat(w, e, events, newer);
  }

  lemma ChunkLive<D, E>(w: Wire<D, E>, d: D, e: E, text: string, s: State<D, E>, sent: string, chunk: string)
    requires Live(w, d, e, text, s, sent)
    ensures var (s2, out, newer) := ChunkRead(w, s, chunk);
            && Live(w, d, e, text + chunk, s2, sent + out)
            && (CarriesEnd(w, d, e, text, chunk) <==> out != "" && w.ends(out, newer))
  {
    hide Lines, Rest, DecodeLines, PushedAll, MergeAll, Encode;
    LinesAcrossCut(text, chunk);
    AbsorbLive(w, d, e, text, Lines(Rest(text) + chunk), s, sent);
  }

  /** The bytes a run sends, from what it read and how it ended. */
  function SentOf<D, E>(w: Wire<D, E>, d: D, e: E, items: seq<Item>): string {
    var read := items[..Reads(w, d, e, items)];
    if read != [] && read[|read| - 1].Ended? then FinalOutput(w, d, e, TextOf(read))
    else OutputOf(w, d, e, TextOf(read))
  }

  lemma EndLive<D, E>(w: Wire<D, E>, d: D, e: E, text: string, s: State<D, E>, sent: string)
    requires Live(w, d, e, text, s, sent)
    ensures var (s', y) := OnEnd(w, s);
            var all := PushedAll(EMPTY, FinalEvents(w, d, text));
            && y.Bytes? && sent + y.bytes == FinalOutput(w, d, e, text)
            && s'.done && s'.recorded
            && s'.records == [Record(all.usage, Complete, all, |FinalOutput(w, d, e, text)|)]
  {
    hide Lines, Rest, DecodeLines, PushedAll, MergeAll, Encode;
    var lines := if s.buf == "" then [] else [s.buf];
    AbsorbLive(w, d, e, text, lines, s, sent);
    assert Lines(text) + [] == Lines(text);
    assert AllLines(text) == Lines(text) + lines;
    var (s1, newer) := Absorbed(w, s, lines, "");
    var (e1, out) := Encode(w, s1.encoder, newer);
    ConcatAssoc(sent, out, w.owed(e1));
    assert [] + [Record(s1.usage, Complete, s1.agg, s1.bytes + |out + w.owed(e1)|)] ==
           [Record(s1.usage, Complete, s1.agg, s1.bytes + |out + w.owed(e1)|)];
  }

  lemma OverStep<D, E>(w: Wire<D, E>, d: D, e: E, items: seq<Item>)
    requires items != []
    ensures var n := |items| - 1;
            IsOver(w, d, e, items) <==> IsOver(w, d, e, items[..n]) || Stops(w, d, e, items[..n], items[n])
  {
    var n := |items| - 1;
    assert forall i :: 0 <= i < n ==> items[..n][..i] == items[..i] && items[..n][i] == items[i];
    if IsOver(w, d, e, items[..n]) {
      var i :| 0 <= i < n && Stops(w, d, e, items[..n][..i], items[..n][i]);
      assert Stops(w, d, e, items[..i], items[i]);
    }
  }

  /** Once over, a run reads, sends and records nothing more. */
  lemma VerdictStays<D, E>(w: Wire<D, E>, d: D, e: E, items: seq<Item>)
    requires items != [] && IsOver(w, d, e, items[..|items| - 1])
    ensures var init := items[..|items| - 1];
            && IsOver(w, d, e, items)
            && Verdict(w, d, e, items) == Verdict(w, d, e, init)
            && SentOf(w, d, e, items) == SentOf(w, d, e, init)
  {
    hide PushedAll, EventsOf, OutputOf, FinalEvents, FinalOutput, IsOver, TextOf;
    var init := items[..|items| - 1];
    OverStep(w, d, e, items);
    var n := Reads(w, d, e, init);
    assert items[..n] == init[..n];
  }

  lemma VerdictNow<D, E>(w: Wire<D, E>, d: D, e: E, items: seq<Item>)
    requires items != [] && !IsOver(w, d, e, items[..|items| - 1])
    ensures items[..Reads(w, d, e, items)] == items
  {
  }

  lemma VerdictLive<D, E>(w: Wire<D, E>, d: D, e: E, items: seq<Item>)
    requires !IsOver(w, d, e, items)
    ensures items[..Reads(w, d, e, items)] == items
    ensures items != [] ==> items[|items| - 1].Chunk?
  {
    if items != [] {
      var n := |items| - 1;
      OverStep(w, d, e, items);
      assert items[..n + 1] == items;
    }
  }

  lemma {:induction false} RunTracks<D, E>(w: Wire<D, E>, d: D, e: E, items: seq<Item>)
    ensures var (s, sent) := Run(w, d, e, items);
            && sent == SentOf(w, d, e, items)
            && (if IsOver(w, d, e, items)
                then s.done && s.recorded && s.records == [Verdict(w, d, e, items)]
                else Live(w, d, e, TextOf(items), s, sent))
    decreases |items|
  {
    if items == [] {
      FirstLine("");
    } else {
      var n := |items| - 1;
      var init, item := items[..n], items[n];
      RunTracks(w, d, e, init);
      if IsOver(w, d, e, init) {
        VerdictStays(w, d, e, items);
      } else {
        RunStep(w, d, e, items);
      }
    }
  }

  lemma RunStep<D, E>(w: Wire<D, E>, d: D, e: E, items: seq<Item>)
    requires items != []
    requires var init := items[..|items| - 1];
             var (s, sent) := Run(w, d, e, init);
             !IsOver(w, d, e, init) && Live(w, d, e, TextOf(init), s, sent)
    ensures var (s, sent) := Run(w, d, e, items);
            && sent == SentOf(w, d, e, items)
            && (if IsOver(w, d, e, items)
                then s.done && s.recorded && s.records == [Verdict(w, d, e, items)]
                else Live(w, d, e, TextOf(items), s, sent))
  {
    hide Lines, Rest, DecodeLines, PushedAll, MergeAll, Encode;
    var n := |items| - 1;
    var init, item := items[..n], items[n];
    var text := TextOf(init);
    var (s, sent) := Run(w, d, e, init);
    OverStep(w, d, e, items);
    VerdictNow(w, d, e, items);
    match item
    case Chunk(chunk) =>
      ChunkLive(w, d, e, text, s, sent, chunk);
      assert sent + "" == sent;
    case Failed => assert text + "" == text;
    case Ended =>
      assert text + "" == text;
      EndLive(w, d, e, text, s, sent);
  }

  /**
   Whatever the upstream does and whenever the client lets go, the turn is filed
   exactly once: with the bytes that were sent, the fold and the usage of every
   event decoded, and the outcome that says how the run ended.
   */
  lemma RecordedExactlyOnce<D, E>(w: Wire<D, E>, d: D, e: E, items: seq<Item>)
    ensures var (s, sent) := Run(w, d, e, items);
            && Dropped(s).records == [Verdict(w, d, e, items)]
            && sent == SentOf(w, d, e, items)
            && Verdict(w, d, e, items).bytes == |sent|
  {
    RunTracks(w, d, e, items);
    var (s, sent) := Run(w, d, e, items);
    if !IsOver(w, d, e, items) {
      VerdictLive(w, d, e, items);
    }
  }

  /**
   Where the cuts fall does not matter: two runs of chunks that are not over and
   have received the same text are in the same state and have sent the same
   bytes, a fresh encoder's output for the complete lines; so too at the end.
   */
  lemma CutsDoNotMatter<D, E>(w: Wire<D, E>, d: D, e: E, xs: seq<Item>, ys: seq<Item>)
    requires !IsOver(w, d, e, xs) && !IsOver(w, d, e, ys)
    requires TextOf(xs) == TextOf(ys)
    ensures Run(w, d, e, xs) == Run(w, d, e, ys)
    ensures Run(w, d, e, xs).1 == OutputOf(w, d, e, TextOf(xs))
    ensures Run(w, d, e, xs + [Ended]) == Run(w, d, e, ys + [Ended])
    ensures Run(w, d, e, xs + [Ended]).1 == FinalOutput(w, d, e, TextOf(xs))
  {
    RunTracks(w, d, e, xs);
    RunTracks(w, d, e, ys);
    assert (xs + [Ended])[..|xs|] == xs && (ys + [Ended])[..|ys|] == ys;
    var (s, sent) := Run(w, d, e, xs);
    EndLive(w, d, e, TextOf(xs), s, sent);
  }

  /** Runs that are over: what was read before the end, and how it ended, decides all that is
      sent and recorded, wherever it was cut and whatever would have come after. */
  lemma ReadTextDecides<D, E>(w: Wire<D, E>, d: D, e: E, xs: seq<Item>, ys: seq<Item>)
    requires IsOver(w, d, e, xs) && IsOver(w, d, e, ys)
    requires var m, n := Reads(w, d, e, xs), Reads(w, d, e, ys);
             && TextOf(xs[..m]) == TextOf(ys[..n])
             && m > 0 && n > 0
             && ((xs[m - 1].Chunk? && ys[n - 1].Chunk?) || xs[m - 1] == ys[n - 1])
    ensures Run(w, d, e, xs).1 == Run(w, d, e, ys).1
    ensures Run(w, d, e, xs).0.records == Run(w, d, e, ys).0.records
  {
    hide TextOf, EventsOf, OutputOf, FinalEvents, FinalOutput, PushedAll, IsOver, Reads, Run, Live;
    RunTracks(w, d, e, xs);
    RunTracks(w, d, e, ys);
    SameVerdict(w, d, e, xs, ys);
  }

  lemma SameVerdict<D, E>(w: Wire<D, E>, d: D, e: E, xs: seq<Item>, ys: seq<Item>)
    requires IsOver(w, d, e, xs) && IsOver(w, d, e, ys)
    requires var m, n := Reads(w, d, e, xs), Reads(w, d, e, ys);
             && TextOf(xs[..m]) == TextOf(ys[..n])
             && m > 0 && n > 0
             && ((xs[m - 1].Chunk? && ys[n - 1].Chunk?) || xs[m - 1] == ys[n - 1])
    ensures Verdict(w, d, e, xs) == Verdict(w, d, e, ys) && SentOf(w, d, e, xs) == SentOf(w, d, e, ys)
  {
    hide TextOf, EventsOf, OutputOf, FinalEvents, FinalOutput, PushedAll, IsOver, Reads;
  }

  /** A run that is over read up to an item that stops it. */
  lemma {:induction false} ReadsToAStop<D, E>(w: Wire<D, E>, d: D, e: E, items: seq<Item>)
    requires IsOver(w, d, e, items)
    ensures var n := Reads(w, d, e, items);
            n > 0 && !IsOver(w, d, e, items[..n - 1]) && Stops(w, d, e, items[..n - 1], items[n - 1])
    decreases |items|
  {
    hide Stops, IsOver;
    SomeItems(w, d, e, items);
    var m := |items| - 1;
    OverStep(w, d, e, items);
    if IsOver(w, d, e, items[..m]) {
      ReadsToAStop(w, d, e, items[..m]);
      var n := Reads(w, d, e, items[..m]);
      assert items[..m][..n - 1] == items[..n - 1];
    }
  }

  lemma SomeItems<D, E>(w: Wire<D, E>, d: D, e: E, items: seq<Item>)
    requires IsOver(w, d, e, items)
    ensures items != []
  {
  }

  /** Nothing that comes after an item that stops the run is read, sent or recorded. */
  lemma {:induction false} StopsReading<D, E>(w: Wire<D, E>, d: D, e: E, before: seq<Item>, item: Item, after: seq<Item>)
    requires !IsOver(w, d, e, before) && Stops(w, d, e, before, item)
    ensures var items, read := before + [item] + after, before + [item];
            && IsOver(w, d, e, items) && IsOver(w, d, e, read)
            && Reads(w, d, e, items) == |before| + 1
            && Verdict(w, d, e, items) == Verdict(w, d, e, read)
            && SentOf(w, d, e, items) == SentOf(w, d, e, read)
    decreases |after|
  {
    hide Stops, IsOver, Verdict, SentOf;
    var items, read := before + [item] + after, before + [item];
    if after == [] {
      assert items == read && read[..|before|] == before;
      OverStep(w, d, e, read);
    } else {
      var n := |after| - 1;
      assert items[..|items| - 1] == before + [item] + after[..n];
      StopsReading(w, d, e, before, item, after[..n]);
      VerdictStays(w, d, e, items);
    }
  }

  /** A chunk that stops a run leaves it complete, with what all the text until then gives. */
  lemma StoppedByChunk<D, E>(w: Wire<D, E>, d: D, e: E, before: seq<Item>, bytes: string, after: seq<Item>)
    requires !IsOver(w, d, e, before) && Stops(w, d, e, before, Chunk(bytes))
    ensures var items := before + [Chunk(bytes)] + after;
            && IsOver(w, d, e, before + [Chunk(bytes)]) && IsOver(w, d, e, items)
            && Reads(w, d, e, items) == |before| + 1
            && Run(w, d, e, items).0.records == [Verdict(w, d, e, items)]
            && Verdict(w, d, e, items).outcome == Complete
            && Run(w, d, e, items).1 == OutputOf(w, d, e, TextOf(before) + bytes)
  {
    hide IsOver, Stops, Run, Live, Reads, Verdict, SentOf;
    var items := before + [Chunk(bytes)] + after;
    StopsReading(w, d, e, before, Chunk(bytes), after);
    RunTracks(w, d, e, items);
    VerdictOfChunk(w, d, e, items, |before|);
    var read := before + [Chunk(bytes)];
    assert items[..|before| + 1] == read && read[..|before|] == before;
  }

  lemma VerdictOfChunk<D, E>(w: Wire<D, E>, d: D, e: E, items: seq<Item>, n: nat)
    requires IsOver(w, d, e, items) && Reads(w, d, e, items) == n + 1 && items[n].Chunk?
    ensures Verdict(w, d, e, items).outcome == Complete
    ensures SentOf(w, d, e, items) == OutputOf(w, d, e, TextOf(items[..n + 1]))
  {
    hide IsOver, Reads, TextOf, EventsOf, OutputOf, FinalEvents, FinalOutput, PushedAll;
    assert items[..n + 1][n] == items[n];
  }
}
