/**
 The framing rules of an Anthropic stream, as an acceptor of messages, and the
 exact event sequences whose encoding obeys them.
 */
module AnthropicFraming {
  import opened Prelude
  import opened Ir
  import opened Anthropic

  /** Where a reader of the stream stands. */
  datatype Phase =
    | Unopened
    | Between(next: nat)                       // no block open; the next is `next`
    | Within(index: nat, kind: BlockKind)      // inside a block
    | Closing                                  // message_delta seen
    | Over                                     // message_stop seen
    | Broken

  function Advance(p: Phase, m: Message): Phase {
    match (p, m)
    case (Unopened, StartMessage(_)) => Between(0)
    case (Between(next), BlockStart(index, block)) =>
      if index == next then Within(index, block.Kind()) else Broken
    case (Within(open, kind), BlockDelta(index, delta)) =>
      if index == open && delta.Kind() == kind then p else Broken
    case (Within(open, _), BlockStop(index)) => if index == open then Between(index + 1) else Broken
    case (Between(_), MessageDelta(_, _)) => Closing
    case (Closing, StopMessage) => Over
    case _ => Broken
  }

  function AdvanceAll(p: Phase, messages: seq<Message>): Phase
    decreases |messages|
  {
    if messages == [] then p else AdvanceAll(Advance(p, messages[0]), messages[1..])
  }

  lemma {:induction false} AdvanceConcat(p: Phase, xs: seq<Message>, ys: seq<Message>)
    ensures AdvanceAll(p, xs + ys) == AdvanceAll(AdvanceAll(p, xs), ys)
    decreases |xs|
  {
    if xs == [] {
      assert xs + ys == ys;
    } else {
      assert (xs + ys)[1..] == xs[1..] + ys;
      AdvanceConcat(Advance(p, xs[0]), xs[1..], ys);
    }
  }

  lemma {:induction false} BrokenStays(messages: seq<Message>)
    ensures AdvanceAll(Broken, messages) == Broken
  {
    if messages != [] {
      BrokenStays(messages[1..]);
    }
  }

  lemma AdvanceOne(p: Phase, m: Message)
    ensures AdvanceAll(p, [m]) == Advance(p, m)
  {
    assert [m][1..] == [];
  }

  /** Nothing but usage comes before an opening or after a closing. */
  predicate Disciplined(events: seq<StreamEvent>) {
    && (forall i, j :: 0 <= i < j < |events| && events[j].MessageStart? ==> events[i].UsageDelta?)
    && (forall i, j :: 0 <= i < j < |events| && events[i].Done? ==> events[j].UsageDelta?)
  }

  /** The phase a reader is in, as the encoder's own state tells it. */
  function PhaseOf(st: Emit, closed: bool): Phase {
    if closed then Over
    else if !st.started then Unopened
    else if st.open == None then Between(st.nextIndex)
    else Within(st.nextIndex, st.open.value)
  }

  predicate OnlyUsage(events: seq<StreamEvent>) {
    forall e :: e in events ==> e.UsageDelta?
  }

  /** What the encoder knows of itself between events. */
  predicate Coherent(st: Emit) {
    (st.open.Some? ==> st.started) && (!st.started ==> st.nextIndex == 0)
  }

  lemma OpenedPhase(st: Emit, block: Block)
    requires Coherent(st)
    ensures AdvanceAll(PhaseOf(st, false), Opened(st, block).1) == PhaseOf(Opened(st, block).0, false)
  {
    var (st1, start) := Started(st);
    var (st2, close) := Closed(st1);
    var last := BlockStart(st2.nextIndex, block);
    AdvanceConcat(PhaseOf(st, false), start + close, [last]);
    ClosedPhase(st);
    AdvanceOne(PhaseOf(st2, false), last);
  }

  /** Starting and closing leaves the reader between blocks. */
  lemma ClosedPhase(st: Emit)
    requires Coherent(st)
    ensures var (st1, start) := Started(st);
            var (st2, close) := Closed(st1);
            AdvanceAll(PhaseOf(st, false), start + close) == PhaseOf(st2, false) == Between(st2.nextIndex)
  {
    var (st1, start) := Started(st);
    var (st2, close) := Closed(st1);
    AdvanceConcat(PhaseOf(st, false), start, close);
    AdvanceOne(Unopened, StartMessage(st.model));
    AdvanceOne(PhaseOf(st1, false), BlockStop(st1.nextIndex));
  }

  lemma DeliveredPhase(st: Emit, delta: Delta)
    requires Coherent(st)
    ensures AdvanceAll(PhaseOf(st, false), Delivered(st, delta).1) == PhaseOf(Delivered(st, delta).0, false)
  {
    var (st1, before) := Ensured(st, delta.Kind());
    var last := BlockDelta(st1.nextIndex, delta);
    AdvanceConcat(PhaseOf(st, false), before, [last]);
    if st.open != Some(delta.Kind()) {
      OpenedPhase(st, EmptyBlock(delta.Kind()));
    }
    assert PhaseOf(st1, false) == Within(st1.nextIndex, delta.Kind());
    AdvanceOne(PhaseOf(st1, false), last);
  }

  lemma FinishedPhase(st: Emit, stop: StopReason)
    requires Coherent(st)
    ensures AdvanceAll(PhaseOf(st, false), Finished(st, stop).1) == Over
  {
    var (st1, start) := Started(st);
    var (st2, close) := Closed(st1);
    var a := MessageDelta(StopText(stop), st2.usage.output);
    AdvanceConcat(PhaseOf(st, false), start + close, [a, StopMessage]);
    ClosedPhase(st);
    assert [a, StopMessage][1..] == [StopMessage];
    AdvanceOne(Closing, StopMessage);
  }

  /** Any output at all after the end breaks the stream. */
  lemma OutputAfterEnd(messages: seq<Message>)
    requires messages != []
    ensures AdvanceAll(Over, messages) == Broken
  {
    BrokenStays(messages[1..]);
  }

  predicate Allowed(before: seq<StreamEvent>, e: StreamEvent) {
    && (e.MessageStart? ==> OnlyUsage(before))
    && (HasDone(before) ==> e.UsageDelta?)
  }

  lemma DisciplinedStep(events: seq<StreamEvent>)
    requires events != []
    ensures var n := |events| - 1;
            Disciplined(events) <==> Disciplined(events[..n]) && Allowed(events[..n], events[n])
  {
    var n := |events| - 1;
    var init := events[..n];
    assert forall i :: 0 <= i < n ==> init[i] == events[i] && init[i] in init;
    if Disciplined(init) && Allowed(init, events[n]) {
      forall i, j | 0 <= i < j < |events| && events[j].MessageStart?
        ensures events[i].UsageDelta?
      {
        assert events[i] in init;
      }
      forall i, j | 0 <= i < j < |events| && events[i].Done?
        ensures events[j].UsageDelta?
      {
        assert events[i] in init;
      }
    }
  }

  /** The phase after an event: the encoder's own when the event is allowed, broken otherwise. */
  lemma EventPhase(st: Emit, before: seq<StreamEvent>, e: StreamEvent)
    requires Coherent(st) && (st.started <==> !OnlyUsage(before))
    requires HasDone(before) ==> st.open == None
    ensures var (st', messages) := Encoded(st, e);
            AdvanceAll(PhaseOf(st, HasDone(before)), messages) ==
            if Allowed(before, e) then PhaseOf(st', HasDone(before) || e.Done?) else Broken
  {
    var (st', messages) := Encoded(st, e);
    if HasDone(before) {
      if !e.UsageDelta? {
        assert messages != [];
        OutputAfterEnd(messages);
      }
    } else {
      match e
      case MessageStart(model) => AdvanceOne(PhaseOf(st, false), StartMessage(model));
      case TextDelta(text) => DeliveredPhase(st, TextPiece(text));
      case ThinkingDelta(text) => DeliveredPhase(st, ThinkingPiece(text));
      case ToolUseStart(id, name) => OpenedPhase(st, ToolBlock(id, name));
      case ToolUseDelta(json) => DeliveredPhase(st, JsonPiece(json));
      case UsageDelta(_) =>
      case Done(stop) => FinishedPhase(st, stop);
    }
  }

  lemma CoherentStep(st: Emit, e: StreamEvent)
    requires Coherent(st)
    ensures var st' := Encoded(st, e).0;
            && Coherent(st')
            && (st'.started <==> st.started || !e.UsageDelta?)
            && (e.Done? || (e.UsageDelta? && st.open == None) ==> st'.open == None)
  {
  }

  lemma MembersOf(events: seq<StreamEvent>)
    requires events != []
    ensures var n := |events| - 1;
            && (OnlyUsage(events) <==> OnlyUsage(events[..n]) && events[n].UsageDelta?)
            && (HasDone(events) <==> HasDone(events[..n]) || events[n].Done?)
  {
    var n := |events| - 1;
    assert forall x :: x in events <==> x in events[..n] || x == events[n];
  }

  lemma {:induction false} EncoderCoherent(events: seq<StreamEvent>)
    ensures var st := EncodedAll(FRESH_EMIT, events).0;
            && Coherent(st)
            && (st.started <==> !OnlyUsage(events))
            && (HasDone(events) && Disciplined(events) ==> st.open == None)
    decreases |events|
  {
    if events != [] {
      var n := |events| - 1;
      EncoderCoherent(events[..n]);
      CoherentStep(EncodedAll(FRESH_EMIT, events[..n]).0, events[n]);
      MembersOf(events);
      DisciplinedStep(events);
    }
  }

  /** Over every event sequence the reader's phase follows the encoder's state,
      or the sequence was not disciplined and the stream is broken for good. */
  lemma {:induction false} PhaseTracksEncoder(events: seq<StreamEvent>)
    ensures var (st, messages) := EncodedAll(FRESH_EMIT, events);
            AdvanceAll(Unopened, messages) ==
            if Disciplined(events) then PhaseOf(st, HasDone(events)) else Broken
    decreases |events|
  {
    if events != [] {
      var n := |events| - 1;
      var init, e := events[..n], events[n];
      PhaseTracksEncoder(init);
      EncoderCoherent(init);
      DisciplinedStep(events);
      MembersOf(events);
      var (st, before) := EncodedAll(FRESH_EMIT, init);
      var (_, messages) := Encoded(st, e);
      AdvanceConcat(Unopened, before, messages);
      if Disciplined(init) {
        EventPhase(st, init, e);
      } else {
        BrokenStays(messages);
      }
    }
  }

  /** The stream an encoder writes obeys the framing rules exactly when its events are disciplined. */
  lemma WellFramedIffDisciplined(events: seq<StreamEvent>)
    ensures AdvanceAll(Unopened, EncodedAll(FRESH_EMIT, events).1) != Broken <==> Disciplined(events)
    ensures AdvanceAll(Unopened, EncodedAll(FRESH_EMIT, events).1) == Over <==>
            Disciplined(events) && HasDone(events)
  {
    PhaseTracksEncoder(events);
  }
}
