/**
 Trying the candidates of a turn in order (yb-gateway/src/service.rs): the guard that
 records a turn nobody answered, the move to the next candidate, and the four ways a
 committed answer reaches the client. What upstreams do, and when the client hangs
 up, comes in as a reply for each candidate.
 */
module Dispatch {
  import opened Prelude
  import opened Json
  import opened Ir
  import opened Aggregate
  import opened StreamDriver
  import opened Relay

  // ---------------------------------------------------------------------
  // What comes in and what is left behind
  // ---------------------------------------------------------------------

  /** A candidate; only some speak a chat format, and each starts its own decoder. */
  datatype Target<!D> = Target(provider: string, chat: bool, decoder: D)

  datatype StreamEnd = Ends | Breaks(failure: int) | HangsUp

  /** An upstream's body: a stream, with how it ends, or a whole body that may not parse. */
  datatype Body =
    | Stream(chunks: seq<string>, end: StreamEnd)
    | Full(parsed: Option<ChatResponse>)

  datatype Reply =
    | CannotEmit                       // the request has no form in the candidate's dialect
    | GoneWaiting                      // the client hangs up before the upstream answers
    | NoConnection(failure: int)       // transport failure, with its error's status
    | Answered(status: int, body: Body)

  /** What the turn leaves in the records. */
  datatype Filing =
    | Unserved(status: int)
    | Faulted(candidate: nat, status: int)
    | Served(candidate: nat, status: int, response: ChatResponse, bytes: nat)
    | Streamed(candidate: nat, status: int, record: Record)

  /** What the client gets. */
  datatype Result =
    | Failure(status: int)
    | Whole(status: int, bytes: string)
    | Events(status: int, bytes: string)
    | NobodyThere

  /** The client's side of the turn: its dialect, how responses are written in it,
      the turn's id and the prompt-cache fields to echo. */
  datatype Client<!D, !E> = Client(
    c: Codec, w: Wire<D, E>, encoder: E, emit: ChatResponse -> Option<string>, id: string,
    streaming: bool, cacheKey: Option<string>, cacheRetention: Option<string>)

  // ---------------------------------------------------------------------
  // Moving on
  // ---------------------------------------------------------------------

  predicate Success(status: int) {
    200 <= status < 300
  }

  predicate IsRetryable(status: int) {
    status >= 500 || status == 408 || status == 429
  }

  predicate IsModelNotFound(status: int) {
    status == 404
  }

  const MESSAGE_CAP := 65536

  /** The client hangs up while an error's body is read, which stops at the cap. */
  predicate GoneReading(body: Body) {
    body.Stream? && body.end.HangsUp? && |Joined(body.chunks)| < MESSAGE_CAP
  }

  /** Only these replies let the turn go on to another candidate. */
  predicate MovesOn(r: Reply) {
    || r.NoConnection?
    || (r.Answered? && !GoneReading(r.body) && (IsRetryable(r.status) || IsModelNotFound(r.status)))
  }

  /** A chat candidate whose reply settles the turn, or none; every chat candidate before it was moved on from. */
  ghost predicate IsSettling<D>(cs: seq<Target<D>>, rs: seq<Reply>, from: nat, k: nat)
    requires |rs| == |cs|
  {
    && from <= k <= |cs|
    && (k < |cs| ==> cs[k].chat && !MovesOn(rs[k]))
    && (forall i :: from <= i < k && cs[i].chat ==> MovesOn(rs[i]))
  }

  /** The first chat candidate whose reply settles the turn, or their number. */
  function Settling<D>(cs: seq<Target<D>>, rs: seq<Reply>, from: nat): (k: nat)
    requires |rs| == |cs| && from <= |cs|
    ensures k <= |cs| && IsSettling(cs, rs, from, k)
    decreases |cs| - from
  {
    if from == |cs| || (cs[from].chat && !MovesOn(rs[from])) then from else Settling(cs, rs, from + 1)
  }

  /** Those of the first n that are chat candidates, in order, each once. */
  ghost predicate AreChats<D>(cs: seq<Target<D>>, n: nat, r: seq<nat>)
    requires n <= |cs|
  {
    && (forall j :: 0 <= j < |r| ==> r[j] < n && cs[r[j]].chat)
    && (forall i, j :: 0 <= i < j < |r| ==> r[i] < r[j])
    && (forall i :: 0 <= i < n && cs[i].chat ==> i in r)
  }

  function Chats<D>(cs: seq<Target<D>>, n: nat): (r: seq<nat>)
    requires n <= |cs|
    ensures AreChats(cs, n, r)
  {
    if n == 0 then [] else Chats(cs, n - 1) + if cs[n - 1].chat then [n - 1] else []
  }

  /** The candidates that are sent the request. */
  function SentTo<D>(cs: seq<Target<D>>, rs: seq<Reply>): seq<nat>
    requires |rs| == |cs|
  {
    var k := Settling(cs, rs, 0);
    Chats(cs, if k < |cs| && !rs[k].CannotEmit? then k + 1 else k)
  }

  // ---------------------------------------------------------------------
  // A committed answer
  // ---------------------------------------------------------------------

  function Echoed<D, E>(cl: Client<D, E>, r: ChatResponse): ChatResponse {
    r.(promptCacheKey := if r.promptCacheKey.Some? then r.promptCacheKey else cl.cacheKey,
       promptCacheRetention := if r.promptCacheRetention.Some? then r.promptCacheRetention else cl.cacheRetention)
  }

  function ItemsOf(body: Body): seq<Item>
    requires body.Stream?
  {
    MapSeq(AsChunk, body.chunks) +
    match body.end
    case Ends => [Ended]
    case Breaks(_) => [Failed]
    case HangsUp => []
  }

  function AsChunk(bytes: string): Item {
    Chunk(bytes)
  }

  /** A whole response for a client that did not ask for a stream. */
  function Emitted<D, E>(cl: Client<D, E>, k: nat, status: int, resp: ChatResponse): (Result, seq<Filing>) {
    match cl.emit(resp)
    case None => (Failure(400), [])
    case Some(bytes) => (Whole(status, bytes), [Served(k, status, resp, |bytes|)])
  }

  /** What a 2xx answer comes to. */
  function Committed<D, E>(cl: Client<D, E>, d: D, k: nat, status: int, body: Body): (Result, seq<Filing>) {
    match body
    case Full(None) => (Failure(400), [])
    case Full(Some(r)) =>
      var resp := Echoed(cl, r);
      if !cl.streaming then Emitted(cl, k, status, resp)
      else
        var bytes := Encode(cl.w, cl.encoder, ResponseEvents(cl.c, resp)).1;
        (Events(status, bytes), [Served(k, status, resp, |bytes|)])
    case Stream(chunks, end) =>
      if cl.streaming then
        (Events(status, SentOf(cl.w, d, cl.encoder, ItemsOf(body))),
         [Streamed(k, status, Verdict(cl.w, d, cl.encoder, ItemsOf(body)))])
      else
        match end
        case HangsUp => (NobodyThere, [])
        case Breaks(failure) => (Failure(failure), [Faulted(k, status)])
        case Ends => Emitted(cl, k, status, Echoed(cl, Buffered(cl.c, cl.w.decode, d, Joined(chunks), cl.id)))
  }

  /** The status of the error left by the last candidate among the first n. */
  function LastFailure<D>(cs: seq<Target<D>>, rs: seq<Reply>, n: nat): Option<int>
    requires n <= |cs| == |rs|
  {
    if n == 0 then None
    else if !cs[n - 1].chat then LastFailure(cs, rs, n - 1)
    else FailureOf(rs[n - 1])
  }

  /** What a reply that does not let the turn go on makes of it. */
  function Settled<D, E>(cl: Client<D, E>, d: D, k: nat, r: Reply): (Result, seq<Filing>) {
    match r
    case CannotEmit => (Failure(400), [Unserved(400)])
    case Answered(status, body) =>
      if Success(status) then Committed(cl, d, k, status, body)
      else if GoneReading(body) then (NobodyThere, [Unserved(499)])
      else (Failure(status), [Faulted(k, status)])
    case _ => (NobodyThere, [Unserved(499)])
  }

  /** The status of the error a reply leaves behind. */
  function FailureOf(r: Reply): Option<int> {
    match r
    case NoConnection(failure) => Some(failure)
    case Answered(status, _) => Some(status)
    case _ => None
  }

  /** What the whole turn comes to, once routed. */
  function Outcome<D, E>(cl: Client<D, E>, cs: seq<Target<D>>, rs: seq<Reply>): (Result, seq<Filing>)
    requires |rs| == |cs|
  {
    var k := Settling(cs, rs, 0);
    if k == |cs| then
      var status := LastFailure(cs, rs, k).GetOr(400);
      (Failure(status), [Unserved(status)])
    else Settled(cl, cs[k].decoder, k, rs[k])
  }

  // ---------------------------------------------------------------------
  // The guard and the dispatch
  // ---------------------------------------------------------------------

  /** Records a turn that no upstream answered; files into the turn's records. */
  class TurnGuard {
    var armed: bool
    var filed: seq<Filing>

    constructor ()
      ensures armed && filed == []
    {
      armed := true;
      filed := [];
    }

    method Disarm()
      modifies this
      ensures !armed && filed == old(filed)
    {
      armed := false;
    }

    method Fail(status: int)
      modifies this
      ensures !armed && filed == old(filed) + [Unserved(status)]
    {
      armed := false;
      filed := filed + [Unserved(status)];
    }

    /** `RecordCtx::finish`, as one step. */
    method Finish(f: Filing)
      modifies this
      ensures armed == old(armed) && filed == old(filed) + [f]
    {
      filed := filed + [f];
    }

    method Drop()
      modifies this
      ensures filed == old(filed) + if old(armed) then [Unserved(499)] else []
    {
      if !armed {
        return;
      }
      filed := filed + [Unserved(499)];
    }
  }

  /** Runs the translated stream over what the upstream gives until the client lets go. */
  method ServeStream<D(==), E(==)>(w: Wire<D, E>, d: D, e: E, items: seq<Item>) returns (record: Record, sent: string)
    ensures record == Verdict(w, d, e, items) && sent == SentOf(w, d, e, items)
  {
    hide Verdict, SentOf, Iterated, Dropped;
    var st := new StreamState(w, d, e);
    sent := "";
    assert items[..0] == [];
    for i := 0 to |items|
      invariant st.w == w && fresh(st)
      invariant (st.View(), sent) == Run(w, d, e, items[..i])
    {
      assert items[..i + 1][..i] == items[..i];
      var y := st.Iterate(items[i]);
      if y.Bytes? {
        sent := sent + y.bytes;
      }
    }
    assert items[..|items|] == items;
    RecordedExactlyOnce(w, d, e, items);
    st.Drop();
    record := st.records[0];
  }

  /** The tail of a buffered answer: written, then recorded. */
  method EmitFull<D, E>(cl: Client<D, E>, guard: TurnGuard, k: nat, status: int, resp: ChatResponse) returns (r: Result)
    modifies guard
    ensures var (result, filings) := Emitted(cl, k, status, resp);
            r == result && guard.filed == old(guard.filed) + filings && guard.armed == old(guard.armed)
  {
    match cl.emit(resp) {
      case None =>
        assert guard.filed == guard.filed + [];
        r := Failure(400);
      case Some(bytes) =>
        guard.Finish(Served(k, status, resp, |bytes|));
        r := Whole(status, bytes);
    }
  }

  method Commit<D(==), E(==)>(cl: Client<D, E>, guard: TurnGuard, d: D, k: nat, status: int, body: Body) returns (r: Result)
    modifies guard
    ensures var (result, filings) := Committed(cl, d, k, status, body);
            r == result && guard.filed == old(guard.filed) + filings && guard.armed == old(guard.armed)
  {
    hide Encode, Verdict, SentOf, Buffered, Emitted, Echoed, ResponseEvents;
    match body {
      case Full(None) =>
        assert guard.filed == guard.filed + [];
        r := Failure(400);
      case Full(Some(response)) =>
        var resp := Echoed(cl, response);
        if !cl.streaming {
          r := EmitFull(cl, guard, k, status, resp);
        } else {
          var events := EventsFromResponse(cl.c, resp);
          var bytes := Encode(cl.w, cl.encoder, events).1;
          guard.Finish(Served(k, status, resp, |bytes|));
          r := Events(status, bytes);
        }
      case Stream(chunks, end) =>
        if cl.streaming {
          var record, sent := ServeStream(cl.w, d, cl.encoder, ItemsOf(body));
          guard.Finish(Streamed(k, status, record));
          r := Events(status, sent);
        } else {
          r := CommitBuffered(cl, guard, d, k, status, chunks, end);
        }
    }
  }

  method CommitBuffered<D, E>(
    cl: Client<D, E>, guard: TurnGuard, d: D, k: nat, status: int, chunks: seq<string>, end: StreamEnd) returns (r: Result)
    requires !cl.streaming
    modifies guard
    ensures var (result, filings) := Committed(cl, d, k, status, Stream(chunks, end));
            r == result && guard.filed == old(guard.filed) + filings && guard.armed == old(guard.armed)
  {
    hide Buffered, Emitted, Echoed;
    if end.HangsUp? {
      assert guard.filed == guard.filed + [];
      return NobodyThere;
    }
    var aggregated, records := AggregateStream(cl.c, cl.w.decode, d, chunks, end.Breaks?, cl.id);
    if aggregated == None {
      guard.Finish(Faulted(k, status));
      return Failure(end.failure);
    }
    r := EmitFull(cl, guard, k, status, Echoed(cl, aggregated.value));
  }

  /** One candidate: `None` when the turn may go on to another. */
  method Attempt<D(==), E(==)>(cl: Client<D, E>, guard: TurnGuard, t: Target<D>, k: nat, reply: Reply)
    returns (r: Option<Result>, failure: Option<int>)
    requires guard.armed && guard.filed == []
    modifies guard
    ensures MovesOn(reply) ==> r == None && failure == FailureOf(reply) && guard.armed && guard.filed == []
    ensures !MovesOn(reply) ==>
              var (result, filings) := Settled(cl, t.decoder, k, reply);
              r == Some(result) && filings == guard.filed + if guard.armed then [Unserved(499)] else []
  {
    hide Committed, GoneReading;
    failure := None;
    match reply {
      case CannotEmit =>
        guard.Fail(400);
        r := Some(Failure(400));
      case GoneWaiting =>
        r := Some(NobodyThere);
      case NoConnection(error) =>
        return None, Some(error);
      case Answered(status, body) =>
        if Success(status) {
          guard.Disarm();
          var result := Commit(cl, guard, t.decoder, k, status, body);
          r := Some(result);
        } else if GoneReading(body) {
          r := Some(NobodyThere);
        } else if IsRetryable(status) || IsModelNotFound(status) {
          return None, Some(status);
        } else {
          guard.Disarm();
          guard.Finish(Faulted(k, status));
          r := Some(Failure(status));
        }
    }
  }

  /** The loop over candidates. */
  method Dispatching<D(==), E(==)>(cl: Client<D, E>, guard: TurnGuard, cs: seq<Target<D>>, rs: seq<Reply>)
    returns (r: Result, sent: seq<nat>)
    requires |rs| == |cs| && guard.armed && guard.filed == []
    modifies guard
    ensures var (result, filings) := Outcome(cl, cs, rs);
            r == result && filings == guard.filed + if guard.armed then [Unserved(499)] else []
    ensures sent == SentTo(cs, rs)
  {
    hide Settled, MovesOn, FailureOf, IsSettling, AreChats;
    var lastErr: Option<int> := None;
    var sawEmbedOnly := true;
    sent := [];
    for i := 0 to |cs|
      invariant guard.armed && guard.filed == []
      invariant Settling(cs, rs, 0) == Settling(cs, rs, i)
      invariant sent == Chats(cs, i)
      invariant lastErr == LastFailure(cs, rs, i)
      invariant sawEmbedOnly ==> lastErr == None
    {
      if !cs[i].chat {
        continue;
      }
      sawEmbedOnly := false;
      var settled, failure := Attempt(cl, guard, cs[i], i, rs[i]);
      MovesOnIsSent(rs[i]);
      if !rs[i].CannotEmit? {
        sent := sent + [i];
      }
      if settled.Some? {
        return settled.value, sent;
      }
      lastErr := failure;
    }
    var status := if sawEmbedOnly then 400 else lastErr.GetOr(400);
    guard.Fail(status);
    r := Failure(status);
  }

  lemma MovesOnIsSent(r: Reply)
    ensures MovesOn(r) ==> !r.CannotEmit?
  {
  }

  /** One turn: routing may fail with a status, or leave nothing to try. */
  method Handle<D(==), E(==)>(cl: Client<D, E>, unroutable: Option<int>, cs: seq<Target<D>>, rs: seq<Reply>)
    returns (r: Result, filed: seq<Filing>, sent: seq<nat>)
    requires |rs| == |cs|
    ensures unroutable.Some? ==> r == Failure(unroutable.value) && filed == [Unserved(unroutable.value)] && sent == []
    ensures unroutable.None? ==> (r, filed) == Outcome(cl, cs, rs) && sent == SentTo(cs, rs)
  {
    hide Committed, MovesOn;
    var guard := new TurnGuard();
    sent := [];
    if unroutable.Some? {
      guard.Fail(unroutable.value);
      r := Failure(unroutable.value);
    } else if cs == [] {
      guard.Fail(400);
      r := Failure(400);
      assert guard.filed == [] + [Unserved(400)] == [Unserved(400)];
      assert (r, guard.filed) == Outcome(cl, cs, rs);
    } else {
      r, sent := Dispatching(cl, guard, cs, rs);
    }
    assert guard.filed + [] == guard.filed;
    guard.Drop();
    filed := guard.filed;
  }

  // ---------------------------------------------------------------------
  // What every turn keeps
  // ---------------------------------------------------------------------

  /** The request goes to chat candidates in order, each at most once and none left out, and
      on to another only after a transport failure or a retryable or 404 status. */
  lemma SentInOrder<D>(cs: seq<Target<D>>, rs: seq<Reply>)
    requires |rs| == |cs|
    ensures var sent := SentTo(cs, rs);
            && (forall i, j :: 0 <= i < j < |sent| ==> sent[i] < sent[j])
            && (forall j :: 0 <= j < |sent| ==> sent[j] < |cs| && cs[sent[j]].chat)
            && (forall j, i :: 0 <= j < |sent| && 0 <= i < sent[j] && cs[i].chat ==> i in sent && MovesOn(rs[i]))
            && (forall j :: 0 <= j < |sent| - 1 ==>
                  || rs[sent[j]].NoConnection?
                  || (rs[sent[j]].Answered? &&
                      (rs[sent[j]].status in {404, 408, 429} || rs[sent[j]].status >= 500)))
  {
    var sent := SentTo(cs, rs);
    var k := Settling(cs, rs, 0);
    forall j | 0 <= j < |sent| - 1
      ensures MovesOn(rs[sent[j]])
    {
      assert sent[j] < sent[|sent| - 1] <= k;
    }
  }

  /** The one gap: a committed answer that is lost before it can be recorded. */
  predicate LostAfterCommit<D, E>(cl: Client<D, E>, d: D, body: Body) {
    match body
    case Full(None) => true
    case Full(Some(r)) => !cl.streaming && cl.emit(Echoed(cl, r)) == None
    case Stream(chunks, end) =>
      && !cl.streaming
      && (|| end.HangsUp?
          || (end.Ends? && cl.emit(Echoed(cl, Buffered(cl.c, cl.w.decode, d, Joined(chunks), cl.id))) == None))
  }

  lemma CommittedFiles<D, E>(cl: Client<D, E>, d: D, k: nat, status: int, body: Body)
    ensures |Committed(cl, d, k, status, body).1| <= 1
    ensures Committed(cl, d, k, status, body).1 == [] <==> LostAfterCommit(cl, d, body)
  {
    hide Buffered, Encode, Verdict, SentOf;
  }

  /**
   A turn leaves at most one record, and none exactly when a 2xx answer is lost after
   the commit: cancelled while it is buffered, not parsed, or not written back.
   */
  lemma FiledAtMostOnce<D, E>(cl: Client<D, E>, cs: seq<Target<D>>, rs: seq<Reply>)
    requires |rs| == |cs|
    ensures |Outcome(cl, cs, rs).1| <= 1
    ensures Outcome(cl, cs, rs).1 == [] <==>
            var k := Settling(cs, rs, 0);
            k < |cs| && rs[k].Answered? && Success(rs[k].status) && LostAfterCommit(cl, cs[k].decoder, rs[k].body)
  {
    hide Committed, LostAfterCommit, MovesOn, GoneReading;
    var k := Settling(cs, rs, 0);
    if k < |cs| && rs[k].Answered? {
      CommittedFiles(cl, cs[k].decoder, k, rs[k].status, rs[k].body);
    }
  }

  /** A turn that nobody answers fails with the last candidate's own status, never the fallback. */
  lemma {:induction false} ExhaustedStatus<D>(cs: seq<Target<D>>, rs: seq<Reply>, n: nat)
    requires n <= |cs| == |rs|
    requires forall i :: 0 <= i < n && cs[i].chat ==> MovesOn(rs[i])
    ensures LastFailure(cs, rs, n).Some? <==> exists i :: 0 <= i < n && cs[i].chat
    decreases n
  {
    if n > 0 && !cs[n - 1].chat {
      ExhaustedStatus(cs, rs, n - 1);
    }
  }
}
