/**
 The router with its counters (yb-gateway/src/router.rs): every resolve orders the survivors
 of each model it tries by that model's round-robin counter or by its loads, and moves them.
 */
module Balance {
  import opened Prelude
  import opened Router
  import opened Fairness

  datatype Strategy = RoundRobin | LeastBusy

  datatype Counters = Counters(rr: nat, loads: seq<nat>)

  type Table = map<string, Counters>

  datatype Call = Call(requested: string, req: Request)

  predicate Fits(snap: Snapshot, table: Table) {
    forall n :: n in snap.models ==> n in table && |table[n].loads| == |snap.models[n]|
  }

  // ---------------------------------------------------------------------
  // Ordering one model's survivors
  // ---------------------------------------------------------------------

  predicate Within(idx: seq<nat>, n: nat) {
    forall k :: 0 <= k < |idx| ==> idx[k] < n
  }

  /** The positions of the deployments that routing does not exclude. */
  function Survivors(ds: seq<Deployment>, req: Request): (idx: seq<nat>)
    ensures Within(idx, |ds|)
  {
    if ds == [] then []
    else
      var n := |ds| - 1;
      Survivors(ds[..n], req) + if Eligible(req, ds[n]) then [n] else []
  }

  function At(ds: seq<Deployment>, idx: seq<nat>): (r: seq<Deployment>)
    requires Within(idx, |ds|)
    ensures |r| == |idx|
    ensures forall k :: 0 <= k < |idx| ==> r[k] == ds[idx[k]]
  {
    seq(|idx|, k requires 0 <= k < |idx| => ds[idx[k]])
  }

  function Sequence(strategy: Strategy, idx: seq<nat>, c: Counters): (r: seq<nat>)
    requires idx != [] && Within(idx, |c.loads|)
    ensures |r| == |idx| && Within(r, |c.loads|)
  {
    match strategy
    case RoundRobin => Rotation(idx, c.rr)
    case LeastBusy => ByLoad(c.loads, idx)
  }

  function Bumped(strategy: Strategy, idx: seq<nat>, c: Counters): Counters
    requires idx != [] && Within(idx, |c.loads|)
  {
    match strategy
    case RoundRobin => c.(rr := c.rr + 1)
    case LeastBusy => var first := ByLoad(c.loads, idx)[0]; c.(loads := c.loads[first := c.loads[first] + 1])
  }

  /** The survivors of a model in the order of the strategy, and the counters moved. */
  function Ordering(strategy: Strategy, snap: Snapshot, table: Table, name: string, req: Request): (seq<Deployment>, Table)
    requires Fits(snap, table)
  {
    if name !in snap.models then ([], table)
    else
      var idx := Survivors(snap.models[name], req);
      if idx == [] then ([], table)
      else
        (At(snap.models[name], Sequence(strategy, idx, table[name])), table[name := Bumped(strategy, idx, table[name])])
  }

  lemma OrderingFits(strategy: Strategy, snap: Snapshot, table: Table, name: string, req: Request)
    requires Fits(snap, table)
    ensures Fits(snap, Ordering(strategy, snap, table, name, req).1)
  {
    hide Sequence, Survivors;
  }

  function OrderAll(strategy: Strategy, snap: Snapshot, table: Table, names: seq<string>, req: Request)
    : (r: (seq<seq<Deployment>>, Table))
    requires Fits(snap, table)
    ensures |r.0| == |names| && Fits(snap, r.1)
  {
    if names == [] then ([], table)
    else
      var (orders, t) := OrderAll(strategy, snap, table, names[..|names| - 1], req);
      OrderingFits(strategy, snap, t, names[|names| - 1], req);
      var (order, t') := Ordering(strategy, snap, t, names[|names| - 1], req);
      (orders + [order], t')
  }

  /** One resolve: its candidates and the counters after it. */
  function Resolved(strategy: Strategy, snap: Snapshot, table: Table, call: Call): (seq<Deployment>, Table)
    requires Fits(snap, table)
  {
    var (orders, t) := OrderAll(strategy, snap, table, Tried(snap, call.requested), call.req);
    (Resolution(orders), t)
  }

  // ---------------------------------------------------------------------
  // The orders are orders of the groups
  // ---------------------------------------------------------------------

  lemma {:induction false} SurvivorsAreKept(ds: seq<Deployment>, req: Request)
    ensures At(ds, Survivors(ds, req)) == Kept(EligibleFor(req), ds)
    decreases |ds|
  {
    if ds != [] {
      var n := |ds| - 1;
      SurvivorsAreKept(ds[..n], req);
      var before := Survivors(ds[..n], req);
      assert forall k :: 0 <= k < |before| ==> ds[..n][before[k]] == ds[before[k]];
    }
  }

  lemma SequencePermutes(strategy: Strategy, idx: seq<nat>, c: Counters)
    requires idx != [] && Within(idx, |c.loads|)
    ensures multiset(Sequence(strategy, idx, c)) == multiset(idx)
  {
    hide ByLoad, Rotation;
    match strategy
    case RoundRobin => RotationLeads(idx, c.rr);
    case LeastBusy => ByLoadPermutes(c.loads, idx);
  }

  lemma AtConcat(ds: seq<Deployment>, xs: seq<nat>, ys: seq<nat>)
    requires Within(xs, |ds|) && Within(ys, |ds|)
    ensures Within(xs + ys, |ds|) && At(ds, xs + ys) == At(ds, xs) + At(ds, ys)
  {
  }

  /** Taking one position out takes its deployment out. */
  lemma AtWithout(ds: seq<Deployment>, ys: seq<nat>, k: nat)
    requires Within(ys, |ds|) && k < |ys|
    ensures Within(ys[..k] + ys[k + 1..], |ds|)
    ensures multiset(At(ds, ys)) == multiset(At(ds, ys[..k] + ys[k + 1..])) + multiset{ds[ys[k]]}
    ensures multiset(ys) == multiset(ys[..k] + ys[k + 1..]) + multiset{ys[k]}
  {
    hide At;
    var a, b := ys[..k], ys[k + 1..];
    assert ys == a + ([ys[k]] + b);
    AtConcat(ds, a, [ys[k]] + b);
    AtConcat(ds, [ys[k]], b);
    AtConcat(ds, a, b);
    assert At(ds, [ys[k]]) == [ds[ys[k]]];
  }

  lemma {:induction false} AtPermutes(ds: seq<Deployment>, xs: seq<nat>, ys: seq<nat>)
    requires Within(xs, |ds|) && Within(ys, |ds|) && multiset(xs) == multiset(ys)
    ensures multiset(At(ds, xs)) == multiset(At(ds, ys))
    decreases |xs|
  {
    hide At, Within;
    if xs == [] {
      assert |multiset(ys)| == |ys|;
    } else {
      var n := |xs| - 1;
      assert xs[n] in multiset(ys);
      var k :| 0 <= k < |ys| && ys[k] == xs[n];
      AtWithout(ds, xs, n);
      AtWithout(ds, ys, k);
      assert multiset(xs[..n] + xs[n + 1..]) == multiset(xs) - multiset{xs[n]};
      assert multiset(ys[..k] + ys[k + 1..]) == multiset(ys) - multiset{xs[n]};
      AtPermutes(ds, xs[..n] + xs[n + 1..], ys[..k] + ys[k + 1..]);
    }
  }

  lemma OrderingPermutes(strategy: Strategy, snap: Snapshot, table: Table, name: string, req: Request)
    requires Fits(snap, table)
    ensures multiset(Ordering(strategy, snap, table, name, req).0) == multiset(Kept(EligibleFor(req), Deployments(snap, name)))
  {
    hide Sequence, Survivors, At, Bumped;
    if name in snap.models {
      var ds := snap.models[name];
      var idx := Survivors(ds, req);
      SurvivorsAreKept(ds, req);
      if idx != [] {
        SequencePermutes(strategy, idx, table[name]);
        AtPermutes(ds, Sequence(strategy, idx, table[name]), idx);
      }
    }
  }

  lemma AreOrdersSnoc(groups: seq<seq<Deployment>>, orders: seq<seq<Deployment>>, group: seq<Deployment>, order: seq<Deployment>)
    requires AreOrders(groups, orders) && multiset(order) == multiset(group)
    ensures AreOrders(groups + [group], orders + [order])
  {
  }

  lemma AreOrdersNone()
    ensures AreOrders([], [])
  {
  }

  lemma {:induction false} OrdersAreOrders(strategy: Strategy, snap: Snapshot, table: Table, names: seq<string>, req: Request)
    requires Fits(snap, table)
    ensures AreOrders(Groups(snap, names, EligibleFor(req)), OrderAll(strategy, snap, table, names, req).0)
    decreases |names|
  {
    hide Ordering, Kept, Fits, AreOrders;
    if names != [] {
      var n := |names| - 1;
      OrdersAreOrders(strategy, snap, table, names[..n], req);
      var (orders, t) := OrderAll(strategy, snap, table, names[..n], req);
      OrderingPermutes(strategy, snap, t, names[n], req);
      var group, order := Kept(EligibleFor(req), Deployments(snap, names[n])), Ordering(strategy, snap, t, names[n], req).0;
      AreOrdersSnoc(Groups(snap, names[..n], EligibleFor(req)), orders, group, order);
      assert Groups(snap, names, EligibleFor(req)) == Groups(snap, names[..n], EligibleFor(req)) + [group];
    } else {
      assert Groups(snap, names, EligibleFor(req)) == [];
      AreOrdersNone();
    }
  }

  // ---------------------------------------------------------------------
  // The router
  // ---------------------------------------------------------------------

  class Balancer {
    const snap: Snapshot
    const strategy: Strategy
    var table: Table

    ghost predicate Valid()
      reads this
    {
      Fits(snap, table)
    }

    constructor (snap: Snapshot, strategy: Strategy)
      ensures Valid() && this.snap == snap && this.strategy == strategy
      ensures forall n :: n in snap.models ==>
                table[n] == Counters(0, seq(|snap.models[n]|, i requires 0 <= i < |snap.models[n]| => 0))
    {
      this.snap := snap;
      this.strategy := strategy;
      table := map n | n in snap.models :: Counters(0, seq(|snap.models[n]|, i requires 0 <= i < |snap.models[n]| => 0));
    }

    /** Orders one model's survivors and moves its counters. */
    method Order(name: string, req: Request) returns (order: seq<Deployment>)
      requires Valid()
      modifies this
      ensures Valid() && (order, table) == Ordering(strategy, snap, old(table), name, req)
    {
      hide Survivors, ByLoad, Rotation;
      OrderingFits(strategy, snap, table, name, req);
      if name !in snap.models { return []; }
      var ds := snap.models[name];
      var survivors := Survivors(ds, req);
      if survivors == [] { return []; }
      var c := table[name];
      match strategy {
        case RoundRobin =>
          table := table[name := c.(rr := c.rr + 1)];
          var turned := Fairness.RoundRobin(survivors, c.rr);
          order := At(ds, turned);
        case LeastBusy =>
          var idx := ByLoad(c.loads, survivors);
          table := table[name := c.(loads := c.loads[idx[0] := c.loads[idx[0]] + 1])];
          order := At(ds, idx);
      }
    }

    /** Resolves a name, moving the counters of every model tried. */
    method Resolve(call: Call) returns (out: Option<seq<Deployment>>)
      requires Valid()
      modifies this
      ensures Valid() && table == Resolved(strategy, snap, old(table), call).1
      ensures var list := Resolved(strategy, snap, old(table), call).0;
              out == if list == [] then None else Some(list)
    {
      hide Ordering, Tried, Resolution, Groups, AreOrders;
      var names := Tried(snap, call.requested);
      var orders := [];
      for i := 0 to |names|
        invariant Valid()
        invariant (orders, table) == OrderAll(strategy, snap, old(table), names[..i], call.req)
      {
        assert names[..i + 1][..i] == names[..i];
        var order := Order(names[i], call.req);
        orders := orders + [order];
      }
      assert names[..|names|] == names;
      OrdersAreOrders(strategy, snap, old(table), names, call.req);
      out := Router.Resolve(snap, call.requested, call.req, orders);
      if out == None {
        NoneLeft(Groups(snap, names, EligibleFor(call.req)), orders);
      }
    }
  }

  lemma NoneLeft(groups: seq<seq<Deployment>>, orders: seq<seq<Deployment>>)
    requires AreOrders(groups, orders) && forall i :: 0 <= i < |groups| ==> groups[i] == []
    ensures Resolution(orders) == []
  {
    hide Resolution;
    forall i | 0 <= i < |orders|
      ensures orders[i] == []
    {
      assert multiset(orders[i]) == multiset(groups[i]);
      assert |multiset(orders[i])| == |orders[i]|;
    }
    AllEmpty(orders);
  }

  // ---------------------------------------------------------------------
  // What a resolve does to one model
  // ---------------------------------------------------------------------

  function Times(names: seq<string>, name: string): nat {
    if names == [] then 0 else Times(names[..|names| - 1], name) + if names[|names| - 1] == name then 1 else 0
  }

  /** The call tries the model first, with these survivors. */
  predicate LeadsWith(snap: Snapshot, call: Call, name: string, idx: seq<nat>) {
    && name in snap.models && idx != [] && Survivors(snap.models[name], call.req) == idx
    && Tried(snap, call.requested)[0] == name
  }

  /** The call moves none of the model's counters. */
  predicate Spares(snap: Snapshot, call: Call, name: string) {
    name !in Tried(snap, call.requested)
  }

  lemma OrderingSpares(strategy: Strategy, snap: Snapshot, table: Table, name: string, req: Request, other: string)
    requires Fits(snap, table) && name in snap.models && other != name
    ensures Ordering(strategy, snap, table, other, req).1[name] == table[name]
  {
    hide Sequence, Survivors, Bumped;
  }

  lemma {:induction false} SparedStays(strategy: Strategy, snap: Snapshot, table: Table, names: seq<string>, req: Request, name: string)
    requires Fits(snap, table) && name in snap.models && name !in names
    ensures OrderAll(strategy, snap, table, names, req).1[name] == table[name]
    decreases |names|
  {
    hide Ordering;
    if names != [] {
      var n := |names| - 1;
      SparedStays(strategy, snap, table, names[..n], req, name);
      OrderingSpares(strategy, snap, OrderAll(strategy, snap, table, names[..n], req).1, name, req, names[n]);
    }
  }

  lemma {:induction false} FirstOrder(strategy: Strategy, snap: Snapshot, table: Table, names: seq<string>, req: Request)
    requires Fits(snap, table) && names != []
    ensures OrderAll(strategy, snap, table, names, req).0[0] == Ordering(strategy, snap, table, names[0], req).0
    decreases |names|
  {
    hide Ordering;
    var n := |names| - 1;
    if n == 0 {
      assert names[..0] == [];
    } else {
      FirstOrder(strategy, snap, table, names[..n], req);
    }
  }

  /** The head of what a resolve returns is the head of the leading model's order. */
  lemma LeaderHeads(strategy: Strategy, snap: Snapshot, table: Table, call: Call, name: string, idx: seq<nat>)
    requires Fits(snap, table) && LeadsWith(snap, call, name, idx) && Within(idx, |table[name].loads|)
    ensures var list := Resolved(strategy, snap, table, call).0;
            list != [] && list[0] == snap.models[name][Sequence(strategy, idx, table[name])[0]]
  {
    hide Sequence, Survivors, Resolution, Tried;
    var names := Tried(snap, call.requested);
    FirstOrder(strategy, snap, table, names, call.req);
    HeadLeads(OrderAll(strategy, snap, table, names, call.req).0, 0);
  }

  /** The round-robin counter moves as often as the model is tried. */
  lemma {:induction false} CounterMoves(snap: Snapshot, table: Table, names: seq<string>, req: Request, name: string)
    requires Fits(snap, table) && name in snap.models && Survivors(snap.models[name], req) != []
    ensures OrderAll(RoundRobin, snap, table, names, req).1[name].rr == table[name].rr + Times(names, name)
    decreases |names|
  {
    hide Ordering, Survivors;
    if names != [] {
      var n := |names| - 1;
      CounterMoves(snap, table, names[..n], req, name);
      var t := OrderAll(RoundRobin, snap, table, names[..n], req).1;
      if names[n] == name {
        CounterMovesOnce(snap, t, name, req);
      } else {
        OrderingSpares(RoundRobin, snap, t, name, req, names[n]);
      }
    }
  }

  lemma CounterMovesOnce(snap: Snapshot, table: Table, name: string, req: Request)
    requires Fits(snap, table) && name in snap.models && Survivors(snap.models[name], req) != []
    ensures Ordering(RoundRobin, snap, table, name, req).1[name].rr == table[name].rr + 1
  {
    hide Survivors, Sequence;
  }

  // ---------------------------------------------------------------------
  // Runs of resolves
  // ---------------------------------------------------------------------

  function After(strategy: Strategy, snap: Snapshot, table: Table, calls: seq<Call>): (t: Table)
    requires Fits(snap, table)
    ensures Fits(snap, t)
  {
    if calls == [] then table
    else Resolved(strategy, snap, After(strategy, snap, table, calls[..|calls| - 1]), calls[|calls| - 1]).1
  }

  /** Of the calls that lead with the model, how many returned this deployment first. */
  function Heads(strategy: Strategy, snap: Snapshot, table: Table, calls: seq<Call>, name: string, d: Deployment): nat
    requires Fits(snap, table)
  {
    if calls == [] then 0
    else
      var n := |calls| - 1;
      var list := Resolved(strategy, snap, After(strategy, snap, table, calls[..n]), calls[n]).0;
      Heads(strategy, snap, table, calls[..n], name, d) +
      if !Spares(snap, calls[n], name) && list != [] && list[0] == d then 1 else 0
  }

  function Leading(snap: Snapshot, calls: seq<Call>, name: string): nat {
    if calls == [] then 0
    else Leading(snap, calls[..|calls| - 1], name) + if Spares(snap, calls[|calls| - 1], name) then 0 else 1
  }

  /** Every call either leads with the model and the same survivors, trying it so many times, or
      leaves it alone. */
  predicate SameSurvivors(snap: Snapshot, calls: seq<Call>, name: string, idx: seq<nat>, k: nat) {
    forall j :: 0 <= j < |calls| ==>
      (LeadsWith(snap, calls[j], name, idx) && Times(Tried(snap, calls[j].requested), name) == k) || Spares(snap, calls[j], name)
  }

  lemma LeadIsNotSpared(snap: Snapshot, call: Call, name: string, idx: seq<nat>)
    requires LeadsWith(snap, call, name, idx)
    ensures !Spares(snap, call, name)
  {
    assert Tried(snap, call.requested)[0] in Tried(snap, call.requested);
  }

  /** The counter has moved `k` for each leading call, and pointed at each head. */
  lemma {:induction false} HeadsFollowCounter(
    snap: Snapshot, table: Table, calls: seq<Call>, name: string, idx: seq<nat>, k: nat, i: nat)
    requires Fits(snap, table) && name in snap.models && SameSurvivors(snap, calls, name, idx, k)
    requires i < |idx| && Within(idx, |snap.models[name]|)
    requires forall j :: 0 <= j < |idx| && j != i ==> snap.models[name][idx[j]] != snap.models[name][idx[i]]
    ensures After(RoundRobin, snap, table, calls)[name].rr == Moved(table[name].rr, k, Leading(snap, calls, name))
    ensures Heads(RoundRobin, snap, table, calls, name, snap.models[name][idx[i]]) ==
            Firsts(|idx|, i, table[name].rr, k, Leading(snap, calls, name))
    decreases |calls|
  {
    hide Resolved, LeadsWith, Spares, Lead, Tried, Times, Moved;
    if calls == [] {
      MovedNone(table[name].rr, k);
    } else {
      var n := |calls| - 1;
      HeadsFollowCounter(snap, table, calls[..n], name, idx, k, i);
      var t := After(RoundRobin, snap, table, calls[..n]);
      if Spares(snap, calls[n], name) {
        SpareStep(RoundRobin, snap, t, calls[n], name);
      } else {
        LeadIsNotSpared(snap, calls[n], name, idx);
        RotateStep(snap, t, calls[n], name, idx);
        MovedOn(table[name].rr, k, Leading(snap, calls[..n], name), 1);
        MovedOnce(k);
      }
    }
  }

  lemma MovedOnce(k: nat)
    ensures Moved(0, k, 1) == k
  {
  }

  lemma SpareStep(strategy: Strategy, snap: Snapshot, table: Table, call: Call, name: string)
    requires Fits(snap, table) && name in snap.models && Spares(snap, call, name)
    ensures Resolved(strategy, snap, table, call).1[name] == table[name]
  {
    SparedStays(strategy, snap, table, Tried(snap, call.requested), call.req, name);
  }

  lemma RotateStep(snap: Snapshot, table: Table, call: Call, name: string, idx: seq<nat>)
    requires Fits(snap, table) && LeadsWith(snap, call, name, idx) && Within(idx, |snap.models[name]|)
    ensures var (list, t) := Resolved(RoundRobin, snap, table, call);
            && list != [] && list[0] == snap.models[name][idx[Lead(|idx|, table[name].rr)]]
            && t[name].rr == table[name].rr + Times(Tried(snap, call.requested), name)
  {
    hide Rotation, Tried, Times, Survivors;
    LeaderHeads(RoundRobin, snap, table, call, name, idx);
    RotationLeads(idx, table[name].rr);
    CounterMoves(snap, table, Tried(snap, call.requested), call.req, name);
  }

  lemma LeadsIsModel(snap: Snapshot, call: Call, name: string, idx: seq<nat>)
    requires LeadsWith(snap, call, name, idx)
    ensures name in snap.models && idx != []
  {
  }

  /**
   Round robin is fair: over any resolves that leave the model alone or lead with it and the
   same survivors, each survivor heads the floor or the ceiling of its share of the leading
   ones; as long as a resolve tries the model a number of times coprime to theirs, which
   once is.
   */
  lemma RoundRobinIsFair(snap: Snapshot, table: Table, calls: seq<Call>, name: string, idx: seq<nat>, k: nat, i: nat)
    requires Fits(snap, table) && name in snap.models && SameSurvivors(snap, calls, name, idx, k)
    requires i < |idx| && Within(idx, |snap.models[name]|)
    requires forall j :: 0 <= j < |idx| && j != i ==> snap.models[name][idx[j]] != snap.models[name][idx[i]]
    requires Coprime(|idx|, k)
    ensures FairShare(|idx|, Leading(snap, calls, name),
                      Heads(RoundRobin, snap, table, calls, name, snap.models[name][idx[i]]))
  {
    hide Heads, Firsts, After, SameSurvivors, Leading, Coprime, FairShare;
    HeadsFollowCounter(snap, table, calls, name, idx, k, i);
    CounterIsFair(|idx|, i, table[name].rr, k, Leading(snap, calls, name));
  }

  /** In particular for a model that each resolve tries once. */
  lemma RoundRobinIsFairOnce(snap: Snapshot, table: Table, calls: seq<Call>, name: string, idx: seq<nat>, i: nat)
    requires Fits(snap, table) && name in snap.models && SameSurvivors(snap, calls, name, idx, 1)
    requires i < |idx| && Within(idx, |snap.models[name]|)
    requires forall j :: 0 <= j < |idx| && j != i ==> snap.models[name][idx[j]] != snap.models[name][idx[i]]
    ensures FairShare(|idx|, Leading(snap, calls, name),
                      Heads(RoundRobin, snap, table, calls, name, snap.models[name][idx[i]]))
  {
    hide Heads, SameSurvivors, Leading, Coprime, FairShare;
    CoprimeToOne(|idx|);
    RoundRobinIsFair(snap, table, calls, name, idx, 1, i);
  }

  function Repeated(call: Call, n: nat): (calls: seq<Call>)
    ensures |calls| == n && forall j :: 0 <= j < n ==> calls[j] == call
  {
    seq(n, _ => call)
  }

  lemma {:induction false} AllLead(snap: Snapshot, call: Call, n: nat, name: string)
    requires !Spares(snap, call, name)
    ensures Leading(snap, Repeated(call, n), name) == n
  {
    hide Spares;
    if n > 0 {
      AllLead(snap, call, n - 1, name);
      assert Repeated(call, n)[..n - 1] == Repeated(call, n - 1);
    }
  }

  /** Otherwise it is not: a call that tries the model another number of times, as one that falls
      back on itself does, repeated for a round gives the first survivor too many. */
  lemma RoundRobinIsUnfair(snap: Snapshot, table: Table, call: Call, name: string, idx: seq<nat>)
    requires Fits(snap, table) && LeadsWith(snap, call, name, idx) && Within(idx, |snap.models[name]|)
    requires forall i, j :: 0 <= i < |idx| && 0 <= j < |idx| && j != i ==> snap.models[name][idx[j]] != snap.models[name][idx[i]]
    requires !Coprime(|idx|, Times(Tried(snap, call.requested), name))
    ensures var calls, first := Repeated(call, |idx|), idx[Lead(|idx|, table[name].rr)];
            !FairShare(|idx|, Leading(snap, calls, name),
                       Heads(RoundRobin, snap, table, calls, name, snap.models[name][first]))
  {
    hide Heads, Firsts, After, Leading, Coprime, FairShare, Spares, LeadsWith, Tried, Times;
    var n, k := |idx|, Times(Tried(snap, call.requested), name);
    var calls := Repeated(call, n);
    LeadsIsModel(snap, call, name, idx);
    LeadIsNotSpared(snap, call, name, idx);
    AllLead(snap, call, n, name);
    HeadsFollowCounter(snap, table, calls, name, idx, k, Lead(n, table[name].rr));
    CounterIsUnfair(n, table[name].rr, k);
  }

  const TWIN_A := Deployment("m", "m", "p", "x")
  const TWIN_B := Deployment("m", "m", "p", "y")
  const ON_ITSELF := Snapshot(map["m" := [TWIN_A, TWIN_B]], map["m" := ["m"]], map[])
  const ANYTHING := Request({}, None, {})

  lemma OnItselfTwice()
    ensures LeadsWith(ON_ITSELF, Call("m", ANYTHING), "m", [0, 1])
    ensures Times(Tried(ON_ITSELF, "m"), "m") == 2 && !Coprime(2, 2)
  {
    var a, b := TWIN_A, TWIN_B;
    assert Follow(ON_ITSELF, "m", 8) == "m";
    assert Tried(ON_ITSELF, "m") == ["m", "m"];
    assert ["m", "m"][..1] == ["m"] && ["m"][..0] == [];
    assert Times(["m"], "m") == 1;
    assert [a, b][..1] == [a] && [a][..0] == [];
    assert Survivors([], ANYTHING) == [] && Survivors([a], ANYTHING) == [0];
    assert Survivors([a, b], ANYTHING) == [0, 1];
    LeadIs(2, Moved(0, 2, 1), 1, 0);
  }

  /** A model of two deployments that falls back on itself gives one of them more than its
      share of two resolves, which is both. */
  lemma AModelThatFallsBackOnItself()
    ensures var table := map["m" := Counters(0, [0, 0])];
            var calls := Repeated(Call("m", ANYTHING), 2);
            && Fits(ON_ITSELF, table)
            && !FairShare(2, Leading(ON_ITSELF, calls, "m"), Heads(RoundRobin, ON_ITSELF, table, calls, "m", TWIN_A))
  {
    hide LeadsWith, Times, Tried, Coprime, FairShare, Heads, Leading, Lead;
    var table := map["m" := Counters(0, [0, 0])];
    OnItselfTwice();
    LeadIs(2, 0, 0, 0);
    RoundRobinIsUnfair(ON_ITSELF, table, Call("m", ANYTHING), "m", [0, 1]);
  }

  // ---------------------------------------------------------------------
  // Least busy
  // ---------------------------------------------------------------------

  /** No call leaves some of these survivors out while it tries the model. */
  predicate AllOrNone(snap: Snapshot, call: Call, name: string, idx: seq<nat>)
    requires name in snap.models
  {
    Spares(snap, call, name) || Survivors(snap.models[name], call.req) == idx || Survivors(snap.models[name], call.req) == []
  }

  lemma OrderingKeepsLevel(snap: Snapshot, table: Table, name: string, req: Request, other: string, idx: seq<nat>)
    requires Fits(snap, table) && name in snap.models && Within(idx, |snap.models[name]|)
    requires Survivors(snap.models[name], req) == idx || Survivors(snap.models[name], req) == []
    requires Level(table[name].loads, idx)
    ensures var t := Ordering(LeastBusy, snap, table, other, req).1;
            Fits(snap, t) && Level(t[name].loads, idx)
  {
    hide ByLoad, Survivors, Level, At;
    OrderingFits(LeastBusy, snap, table, other, req);
    if other != name {
      OrderingSpares(LeastBusy, snap, table, name, req, other);
    } else if Survivors(snap.models[name], req) != [] {
      LeastKeepsLevel(table[name].loads, idx);
    }
  }

  lemma {:induction false} OrderAllKeepsLevel(snap: Snapshot, table: Table, names: seq<string>, name: string, req: Request, idx: seq<nat>)
    requires Fits(snap, table) && name in snap.models && Within(idx, |snap.models[name]|)
    requires Survivors(snap.models[name], req) == idx || Survivors(snap.models[name], req) == []
    requires Level(table[name].loads, idx)
    ensures Level(OrderAll(LeastBusy, snap, table, names, req).1[name].loads, idx)
    decreases |names|
  {
    hide Ordering, Level, Survivors;
    if names != [] {
      var n := |names| - 1;
      OrderAllKeepsLevel(snap, table, names[..n], name, req, idx);
      OrderingKeepsLevel(snap, OrderAll(LeastBusy, snap, table, names[..n], req).1, name, req, names[n], idx);
    }
  }

  /** Loads that start level stay within one of each other, over any resolves of any names. */
  lemma {:induction false} LeastBusyStaysLevel(snap: Snapshot, table: Table, calls: seq<Call>, name: string, idx: seq<nat>)
    requires Fits(snap, table) && name in snap.models && Within(idx, |snap.models[name]|)
    requires forall k :: 0 <= k < |calls| ==> AllOrNone(snap, calls[k], name, idx)
    requires Level(table[name].loads, idx)
    ensures Level(After(LeastBusy, snap, table, calls)[name].loads, idx)
    decreases |calls|
  {
    hide Level, Survivors, Spares, OrderAll;
    if calls != [] {
      var n := |calls| - 1;
      var call := calls[n];
      LeastBusyStaysLevel(snap, table, calls[..n], name, idx);
      var t := After(LeastBusy, snap, table, calls[..n]);
      if Spares(snap, call, name) {
        SpareStep(LeastBusy, snap, t, call, name);
      } else {
        assert AllOrNone(snap, calls[n], name, idx);
        OrderAllKeepsLevel(snap, t, Tried(snap, call.requested), name, call.req, idx);
      }
    }
  }

  /** The first candidate of a resolve that leads with the model is a survivor with the least load. */
  lemma LeastBusyHeadsLeast(snap: Snapshot, table: Table, call: Call, name: string, idx: seq<nat>)
    requires Fits(snap, table) && LeadsWith(snap, call, name, idx) && Within(idx, |snap.models[name]|)
    ensures var list := Resolved(LeastBusy, snap, table, call).0;
            var loads := table[name].loads;
            exists x :: x in idx && list != [] && list[0] == snap.models[name][x]
              && forall k :: 0 <= k < |idx| ==> loads[x] <= loads[idx[k]]
  {
    hide Resolved, LeadsWith, ByLoad;
    LeadsIsModel(snap, call, name, idx);
    LeaderHeads(LeastBusy, snap, table, call, name, idx);
    HeadIsLeast(table[name].loads, idx);
    var x := ByLoad(table[name].loads, idx)[0];
    assert x in idx;
  }
}
