/**
 What a dispatched turn comes to (yb-gateway/src/service.rs), said in status numbers and
 replies alone: which candidates are sent the request, and what the client and the
 records are left with.
 */
module DispatchOutcomes {
  import opened Prelude
  import opened Ir
  import opened Aggregate
  import opened StreamDriver
  import opened Relay
  import opened Dispatch

  /** The client is gone before the error's body is read to its end or to 64 KiB. */
  ghost predicate Abandoned(body: Body) {
    body.Stream? && body.end == HangsUp && |Joined(body.chunks)| < 65536
  }

  /** What arrived in pieces is read as one text: nothing, a piece, and the pieces after it. */
  lemma {:induction false} PiecesJoin(xs: seq<string>, ys: seq<string>, x: string)
    ensures Joined([]) == "" && Joined([x]) == x && Joined(xs + ys) == Joined(xs) + Joined(ys)
    decreases |ys|
  {
    assert [x][..0] == [];
    if ys == [] {
      assert xs + ys == xs;
    } else {
      var n := |ys| - 1;
      assert (xs + ys)[..|xs + ys| - 1] == xs + ys[..n];
      PiecesJoin(xs, ys[..n], x);
    }
  }

  /** The replies after which another provider is tried. */
  ghost predicate SendsOn(r: Reply) {
    match r
    case NoConnection(_) => true
    case Answered(status, body) => (status == 404 || status == 408 || status == 429 || status >= 500) && !Abandoned(body)
    case _ => false
  }

  lemma SendsOnIff(r: Reply)
    ensures MovesOn(r) <==> SendsOn(r)
  {
  }

  /** Every chat candidate before this one was moved on from. */
  ghost predicate Reached<D>(cs: seq<Target<D>>, rs: seq<Reply>, k: nat)
    requires |rs| == |cs|
  {
    k < |cs| && cs[k].chat && forall i :: 0 <= i < k && cs[i].chat ==> SendsOn(rs[i])
  }

  lemma SettlesAt<D>(cs: seq<Target<D>>, rs: seq<Reply>, k: nat)
    requires |rs| == |cs| && Reached(cs, rs, k)
    ensures Settling(cs, rs, 0) >= k
    ensures !SendsOn(rs[k]) ==> Settling(cs, rs, 0) == k
  {
    hide SendsOn, MovesOn;
    forall i | 0 <= i < |rs| ensures MovesOn(rs[i]) <==> SendsOn(rs[i]) {
      SendsOnIff(rs[i]);
    }
    assert IsSettling(cs, rs, 0, Settling(cs, rs, 0));
  }

  /** A candidate is sent the request if and only if it speaks a chat format, the request can be
      put in its dialect, and every chat candidate before it failed to connect or answered 404, 408, 429
      or 500 and above; no two are sent it out of order. */
  lemma SentIff<D>(cs: seq<Target<D>>, rs: seq<Reply>, k: nat)
    requires |rs| == |cs|
    ensures k in SentTo(cs, rs) <==> Reached(cs, rs, k) && rs[k] != CannotEmit
    ensures forall i, j :: 0 <= i < j < |SentTo(cs, rs)| ==> SentTo(cs, rs)[i] < SentTo(cs, rs)[j]
  {
    hide SendsOn, MovesOn;
    var s := Settling(cs, rs, 0);
    forall i | 0 <= i < |rs| ensures (MovesOn(rs[i]) <==> SendsOn(rs[i])) && (rs[i].CannotEmit? ==> !SendsOn(rs[i])) {
      SendsOnIff(rs[i]);
      Unsent(rs[i]);
    }
    assert IsSettling(cs, rs, 0, s);
    if Reached(cs, rs, k) {
      SettlesAt(cs, rs, k);
    }
  }

  lemma Unsent(r: Reply)
    ensures r.CannotEmit? ==> !SendsOn(r)
  {
  }

  /** The first chat candidate refuses: it alone is asked, and its answer is the client's. */
  lemma RefusedAtOnce<D, E>(cl: Client<D, E>, cs: seq<Target<D>>, rs: seq<Reply>, k: nat, status: int, body: Body)
    requires |rs| == |cs| && k < |cs| && cs[k].chat && (forall i :: 0 <= i < k ==> !cs[i].chat)
    requires rs[k] == Answered(status, body) && !Abandoned(body)
    requires (status < 200 || 300 <= status < 500) && status != 404 && status != 408 && status != 429
    ensures SentTo(cs, rs) == [k]
    ensures Dispatch.Outcome(cl, cs, rs) == (Failure(status), [Faulted(k, status)])
  {
    hide Committed, SentTo;
    SettlesAt(cs, rs, k);
    SentOnlyTo(cs, rs, k);
  }

  lemma SentOnlyTo<D>(cs: seq<Target<D>>, rs: seq<Reply>, k: nat)
    requires |rs| == |cs| && Reached(cs, rs, k) && rs[k] != CannotEmit && !SendsOn(rs[k])
    requires forall i :: 0 <= i < k ==> !cs[i].chat
    ensures SentTo(cs, rs) == [k]
  {
    hide SentTo, SendsOn;
    forall i: nat ensures i in SentTo(cs, rs) <==> i == k {
      SentIff(cs, rs, i);
    }
    SentIff(cs, rs, k);
    OnlyOne(SentTo(cs, rs), k);
  }

  lemma OnlyOne(s: seq<nat>, k: nat)
    requires forall i: nat :: i in s <==> i == k
    requires forall i, j :: 0 <= i < j < |s| ==> s[i] < s[j]
    ensures s == [k]
  {
    assert k in s;
    assert s[0] in s && s[|s| - 1] in s;
  }

  /** The first chat candidate fails in a way another may not: the next one is asked. */
  lemma SentOn<D>(cs: seq<Target<D>>, rs: seq<Reply>, k: nat, next: nat, status: int, body: Body)
    requires |rs| == |cs| && k < next < |cs| && cs[k].chat && cs[next].chat
    requires forall i :: 0 <= i < next && i != k ==> !cs[i].chat
    requires rs[k] == Answered(status, body) && !Abandoned(body)
    requires status == 404 || status == 408 || status == 429 || status >= 500
    requires rs[next] != CannotEmit
    ensures |SentTo(cs, rs)| >= 2 && SentTo(cs, rs)[0] == k && SentTo(cs, rs)[1] == next
  {
    hide SentTo;
    SentIff(cs, rs, k);
    SentIff(cs, rs, next);
    var s := SentTo(cs, rs);
    assert k in s && next in s;
    forall j | 0 <= j < |s|
      ensures s[j] == k || s[j] >= next
    {
      SentIff(cs, rs, s[j]);
      assert s[j] in s;
    }
    FirstTwo(s, k, next);
  }

  lemma FirstTwo(s: seq<nat>, k: nat, next: nat)
    requires k < next && k in s && next in s
    requires forall i, j :: 0 <= i < j < |s| ==> s[i] < s[j]
    requires forall j :: 0 <= j < |s| ==> s[j] == k || s[j] >= next
    ensures |s| >= 2 && s[0] == k && s[1] == next
  {
    var a :| 0 <= a < |s| && s[a] == k;
    var b :| 0 <= b < |s| && s[b] == next;
    assert s[0] <= s[a];
    assert s[1] <= s[b];
  }

  /** A client that leaves, and a request that has no form in the dialect. */
  lemma StoppedAt<D, E>(cl: Client<D, E>, cs: seq<Target<D>>, rs: seq<Reply>, k: nat)
    requires |rs| == |cs| && Reached(cs, rs, k)
    ensures rs[k] == CannotEmit ==> Dispatch.Outcome(cl, cs, rs) == (Failure(400), [Unserved(400)])
    ensures rs[k] == GoneWaiting ==> Dispatch.Outcome(cl, cs, rs) == (NobodyThere, [Unserved(499)])
    ensures rs[k].Answered? && !(200 <= rs[k].status < 300) && Abandoned(rs[k].body) ==>
              Dispatch.Outcome(cl, cs, rs) == (NobodyThere, [Unserved(499)])
  {
    hide Committed, Joined;
    SettlesAt(cs, rs, k);
  }

  /** A response on its way to the client: the prompt-cache fields the upstream left out are the request's. */
  ghost predicate Echoes<D, E>(cl: Client<D, E>, r: ChatResponse, to: ChatResponse) {
    && to.promptCacheKey == (if r.promptCacheKey == None then cl.cacheKey else r.promptCacheKey)
    && to.promptCacheRetention == (if r.promptCacheRetention == None then cl.cacheRetention else r.promptCacheRetention)
    && (to.id, to.model, to.content, to.stop, to.usage) == (r.id, r.model, r.content, r.stop, r.usage)
  }

  /** A 2xx with a whole body goes to the client in the form it asked for, or is lost unparsed. */
  lemma WholeAnswer<D, E>(cl: Client<D, E>, cs: seq<Target<D>>, rs: seq<Reply>, k: nat, status: int, to: ChatResponse)
    requires |rs| == |cs| && Reached(cs, rs, k) && 200 <= status < 300
    ensures rs[k] == Answered(status, Full(None)) ==> Dispatch.Outcome(cl, cs, rs) == (Failure(400), [])
    ensures rs[k].Answered? && rs[k].status == status && rs[k].body.Full? && rs[k].body.parsed.Some? &&
            Echoes(cl, rs[k].body.parsed.value, to) ==>
              if cl.streaming then
                var text := Encode(cl.w, cl.encoder, ResponseEvents(cl.c, to)).1;
                Dispatch.Outcome(cl, cs, rs) == (Events(status, text), [Served(k, status, to, |text|)])
              else if cl.emit(to) == None then Dispatch.Outcome(cl, cs, rs) == (Failure(400), [])
              else
                var text := cl.emit(to).value;
                Dispatch.Outcome(cl, cs, rs) == (Whole(status, text), [Served(k, status, to, |text|)])
  {
    hide Encode, ResponseEvents;
    SettlesAt(cs, rs, k);
    if rs[k].Answered? && rs[k].body.Full? && rs[k].body.parsed.Some? && Echoes(cl, rs[k].body.parsed.value, to) {
      assert Echoed(cl, rs[k].body.parsed.value) == to;
    }
  }

  /** What comes of a stream, piece by piece, and how it ends. */
  ghost predicate Arrives(chunks: seq<string>, end: StreamEnd, items: seq<Item>) {
    && |items| == |chunks| + (if end == HangsUp then 0 else 1)
    && (forall i :: 0 <= i < |chunks| ==> items[i] == Chunk(chunks[i]))
    && (end == Ends ==> items[|chunks|] == Ended)
    && (end.Breaks? ==> items[|chunks|] == Failed)
  }

  lemma ItemsArrive(chunks: seq<string>, end: StreamEnd, items: seq<Item>)
    requires Arrives(chunks, end, items)
    ensures ItemsOf(Stream(chunks, end)) == items
  {
    var made := ItemsOf(Stream(chunks, end));
    assert |made| == |items|;
    assert forall i :: 0 <= i < |items| ==> made[i] == items[i];
  }

  /** A 2xx stream is translated as it comes for a client that streams; for another it is read to
      its end, and what breaks it is the client's answer. */
  lemma StreamedAnswer<D, E>(
    cl: Client<D, E>, cs: seq<Target<D>>, rs: seq<Reply>, k: nat, status: int,
    chunks: seq<string>, end: StreamEnd, items: seq<Item>, to: ChatResponse)
    requires |rs| == |cs| && Reached(cs, rs, k) && 200 <= status < 300
    requires rs[k] == Answered(status, Stream(chunks, end)) && Arrives(chunks, end, items)
    ensures cl.streaming ==>
              Dispatch.Outcome(cl, cs, rs) ==
              (Events(status, SentOf(cl.w, cs[k].decoder, cl.encoder, items)),
               [Streamed(k, status, Verdict(cl.w, cs[k].decoder, cl.encoder, items))])
    ensures !cl.streaming && end == HangsUp ==> Dispatch.Outcome(cl, cs, rs) == (NobodyThere, [])
    ensures !cl.streaming && end.Breaks? ==> Dispatch.Outcome(cl, cs, rs) == (Failure(end.failure), [Faulted(k, status)])
    ensures !cl.streaming && end == Ends && Echoes(cl, Buffered(cl.c, cl.w.decode, cs[k].decoder, Joined(chunks), cl.id), to) ==>
              if cl.emit(to) == None then Dispatch.Outcome(cl, cs, rs) == (Failure(400), [])
              else Dispatch.Outcome(cl, cs, rs) ==
                   (Whole(status, cl.emit(to).value), [Served(k, status, to, |cl.emit(to).value|)])
  {
    hide SentOf, Verdict, Buffered, ItemsOf, Joined;
    SettlesAt(cs, rs, k);
    ItemsArrive(chunks, end, items);
    var read := Buffered(cl.c, cl.w.decode, cs[k].decoder, Joined(chunks), cl.id);
    if Echoes(cl, read, to) {
      assert Echoed(cl, read) == to;
    }
  }

  /** When every chat candidate was moved on from, the client gets the last one's failure; 400 when there was none. */
  lemma Exhausted<D, E>(cl: Client<D, E>, cs: seq<Target<D>>, rs: seq<Reply>, status: int)
    requires |rs| == |cs| && forall i :: 0 <= i < |cs| && cs[i].chat ==> SendsOn(rs[i])
    requires if forall i :: 0 <= i < |cs| ==> !cs[i].chat then status == 400
             else exists last ::
               && 0 <= last < |cs| && cs[last].chat && (forall i :: last < i < |cs| ==> !cs[i].chat)
               && (rs[last] == NoConnection(status) || (rs[last].Answered? && rs[last].status == status))
    ensures Dispatch.Outcome(cl, cs, rs) == (Failure(status), [Unserved(status)])
  {
    hide SendsOn, MovesOn;
    forall i | 0 <= i < |rs| ensures MovesOn(rs[i]) <==> SendsOn(rs[i]) {
      SendsOnIff(rs[i]);
    }
    assert IsSettling(cs, rs, 0, Settling(cs, rs, 0));
    if last :| 0 <= last < |cs| && cs[last].chat && (forall i :: last < i < |cs| ==> !cs[i].chat)
               && (rs[last] == NoConnection(status) || (rs[last].Answered? && rs[last].status == status)) {
      LastFailureIs(cs, rs, |cs|, last);
    } else {
      NoFailure(cs, rs, |cs|);
    }
  }

  lemma {:induction false} LastFailureIs<D>(cs: seq<Target<D>>, rs: seq<Reply>, n: nat, last: nat)
    requires last < n <= |cs| == |rs| && cs[last].chat && forall i :: last < i < n ==> !cs[i].chat
    ensures LastFailure(cs, rs, n) == FailureOf(rs[last])
  {
    if n - 1 > last {
      LastFailureIs(cs, rs, n - 1, last);
    }
  }

  lemma {:induction false} NoFailure<D>(cs: seq<Target<D>>, rs: seq<Reply>, n: nat)
    requires n <= |cs| == |rs| && forall i :: 0 <= i < n ==> !cs[i].chat
    ensures LastFailure(cs, rs, n) == None
  {
    if n > 0 {
      NoFailure(cs, rs, n - 1);
    }
  }
}
