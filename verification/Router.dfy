/**
 Resolving a public model name to an ordered list of deployments
 (yb-gateway/src/router.rs), under a caller's access policy
 (yb-gateway/src/service.rs).
 */
module Router {
  import opened Prelude
  import opened Access

  datatype Deployment = Deployment(modelId: string, modelName: string, providerId: string, upstreamModel: string)

  type Key = (string, string, string)

  function KeyOf(d: Deployment): Key {
    (d.providerId, d.upstreamModel, d.modelId)
  }

  datatype Snapshot = Snapshot(
    models: map<string, seq<Deployment>>,
    fallbacks: map<string, seq<string>>,
    aliases: map<string, string>)

  // ---------------------------------------------------------------------
  // Building and naming
  // ---------------------------------------------------------------------

  /** The deployments of one public name, in the order given. */
  function Grouped(all: seq<Deployment>, name: string): seq<Deployment> {
    if all == [] then []
    else
      var n := |all| - 1;
      Grouped(all[..n], name) + if all[n].modelName == name then [all[n]] else []
  }

  method BuildModels(all: seq<Deployment>) returns (models: map<string, seq<Deployment>>)
    ensures forall n :: n in models <==> Grouped(all, n) != []
    ensures forall n :: n in models ==> models[n] == Grouped(all, n)
  {
    models := map[];
    for i := 0 to |all|
      invariant forall n :: n in models <==> Grouped(all[..i], n) != []
      invariant forall n :: n in models ==> models[n] == Grouped(all[..i], n)
    {
      var d := all[i];
      var before := if d.modelName in models then models[d.modelName] else [];
      models := models[d.modelName := before + [d]];
      assert all[..i + 1][..i] == all[..i];
    }
    assert all[..|all|] == all;
  }

  /** Follows aliases until a model with deployments, an unknown name, or `hops` steps. */
  function Follow(snap: Snapshot, name: string, hops: nat): string
    decreases hops
  {
    if hops == 0 || name in snap.models || name !in snap.aliases then name
    else Follow(snap, snap.aliases[name], hops - 1)
  }

  method Canonical(snap: Snapshot, requested: string) returns (name: string)
    ensures name == Follow(snap, requested, 8)
  {
    name := requested;
    for i := 0 to 8
      invariant Follow(snap, requested, 8) == Follow(snap, name, 8 - i)
    {
      if name in snap.models { return; }
      if name !in snap.aliases { return; }
      name := snap.aliases[name];
    }
  }

  // ---------------------------------------------------------------------
  // Filtering
  // ---------------------------------------------------------------------

  datatype Request = Request(excludedModels: set<string>, enabledProviders: Option<set<string>>, deniedProviders: set<string>)

  /** A caller: its effective policy and what its context excludes. */
  datatype Caller = Caller(access: Policy, excludedModels: set<string>, excludedProviders: set<string>)

  function RouteRequest(c: Caller): Request {
    Request(
      c.excludedModels + (set m | m in c.access.deniedModels),
      if c.access.allowedProviders == [] then None else Some(set p | p in c.access.allowedProviders),
      c.excludedProviders + (set p | p in c.access.deniedProviders))
  }

  predicate Eligible(req: Request, d: Deployment) {
    && d.modelId !in req.excludedModels
    && (req.enabledProviders.Some? ==> d.providerId in req.enabledProviders.value)
    && d.providerId !in req.deniedProviders
  }

  /** The check after routing. */
  predicate PassesAccess(c: Caller, d: Deployment) {
    && PermitsModel(c.access, d.modelId) && PermitsProvider(c.access, d.providerId)
    && d.modelId !in c.excludedModels && d.providerId !in c.excludedProviders
  }

  function Kept(p: Deployment -> bool, ds: seq<Deployment>): (out: seq<Deployment>)
    ensures forall d :: d in out <==> d in ds && p(d)
  {
    if ds == [] then []
    else
      var n := |ds| - 1;
      var rest := Kept(p, ds[..n]);
      assert forall d :: d in ds <==> d in ds[..n] || d == ds[n];
      if p(ds[n]) then rest + [ds[n]] else rest
  }

  // ---------------------------------------------------------------------
  // What a candidate list must be
  // ---------------------------------------------------------------------

  function Keys(ds: seq<Deployment>): set<Key> {
    set d | d in ds :: KeyOf(d)
  }

  predicate DistinctKeys(ds: seq<Deployment>) {
    forall i, j :: 0 <= i < j < |ds| ==> KeyOf(ds[i]) != KeyOf(ds[j])
  }

  /** The deployments whose key is new: not seen before, nor earlier in the same order. */
  function FirstNew(ordered: seq<Deployment>, seen: set<Key>): seq<Deployment> {
    if ordered == [] then []
    else
      var n := |ordered| - 1;
      var before := FirstNew(ordered[..n], seen);
      if KeyOf(ordered[n]) in seen || KeyOf(ordered[n]) in Keys(before) then before else before + [ordered[n]]
  }

  /** The groups in turn, each in its own order, each key where it first comes. */
  function Resolution(orders: seq<seq<Deployment>>): seq<Deployment> {
    if orders == [] then []
    else
      var before := Resolution(orders[..|orders| - 1]);
      before + FirstNew(orders[|orders| - 1], Keys(before))
  }

  /** The names tried: the canonical model, then its fallbacks. */
  function Tried(snap: Snapshot, requested: string): (names: seq<string>)
    ensures names != []
  {
    var model := Follow(snap, requested, 8);
    [model] + if model in snap.fallbacks then snap.fallbacks[model] else []
  }

  function Deployments(snap: Snapshot, name: string): seq<Deployment> {
    if name in snap.models then snap.models[name] else []
  }

  function Groups(snap: Snapshot, names: seq<string>, p: Deployment -> bool): (groups: seq<seq<Deployment>>)
    ensures |groups| == |names|
    ensures forall i :: 0 <= i < |names| ==> groups[i] == Kept(p, Deployments(snap, names[i]))
  {
    seq(|names|, i requires 0 <= i < |names| => Kept(p, Deployments(snap, names[i])))
  }

  lemma JoinDistinct(xs: seq<Deployment>, ys: seq<Deployment>)
    requires DistinctKeys(xs) && DistinctKeys(ys)
    requires forall d :: d in ys ==> KeyOf(d) !in Keys(xs)
    ensures DistinctKeys(xs + ys)
  {
    var all := xs + ys;
    forall i, j | 0 <= i < j < |all|
      ensures KeyOf(all[i]) != KeyOf(all[j])
    {
      if i < |xs| <= j {
        assert all[i] in xs && all[j] in ys;
      }
    }
  }

  lemma JoinKeys(xs: seq<Deployment>, ys: seq<Deployment>)
    ensures Keys(xs + ys) == Keys(xs) + Keys(ys)
    ensures forall d :: d in xs + ys <==> d in xs || d in ys
  {
  }

  lemma JoinOne(seg: seq<Deployment>, d: Deployment)
    requires DistinctKeys(seg) && KeyOf(d) !in Keys(seg)
    ensures DistinctKeys(seg + [d])
    ensures Keys(seg + [d]) == Keys(seg) + {KeyOf(d)}
  {
    assert forall e :: e in seg ==> KeyOf(e) in Keys(seg);
    assert forall e :: e in seg + [d] <==> e in seg || e == d;
  }

  /** Each key of the order that was not seen, once. */
  lemma {:induction false} FirstNewHolds(ordered: seq<Deployment>, seen: set<Key>)
    ensures var seg := FirstNew(ordered, seen);
            && DistinctKeys(seg)
            && (forall d :: d in seg ==> d in ordered && KeyOf(d) !in seen)
            && (forall d :: d in ordered ==> KeyOf(d) in seen || KeyOf(d) in Keys(seg))
    decreases |ordered|
  {
    hide DistinctKeys, Keys;
    if ordered == [] {
      NoKeys();
    } else {
      var n := |ordered| - 1;
      FirstNewHolds(ordered[..n], seen);
      var before := FirstNew(ordered[..n], seen);
      assert forall d :: d in ordered <==> d in ordered[..n] || d == ordered[n];
      if KeyOf(ordered[n]) !in Keys(before) {
        JoinOne(before, ordered[n]);
      }
    }
  }

  lemma NoKeys()
    ensures DistinctKeys([]) && Keys([]) == {}
  {
  }

  /** Whether the j-th of an order is the first of its key, and the key new. */
  predicate IsNew(ordered: seq<Deployment>, seen: set<Key>, j: nat)
    requires j < |ordered|
  {
    KeyOf(ordered[j]) !in seen && forall i :: 0 <= i < j ==> KeyOf(ordered[i]) != KeyOf(ordered[j])
  }

  lemma IsNewEarlier(ordered: seq<Deployment>, seen: set<Key>, n: nat)
    requires n <= |ordered|
    ensures forall j :: 0 <= j < n ==> (IsNew(ordered[..n], seen, j) <==> IsNew(ordered, seen, j))
  {
  }

  lemma LastIsNew(ordered: seq<Deployment>, seen: set<Key>)
    requires ordered != []
    ensures var n := |ordered| - 1;
            IsNew(ordered, seen, n) <==>
              KeyOf(ordered[n]) !in seen && KeyOf(ordered[n]) !in Keys(FirstNew(ordered[..n], seen))
  {
    hide FirstNew;
    var n := |ordered| - 1;
    FirstNewHolds(ordered[..n], seen);
    forall i | 0 <= i < n
      ensures ordered[i] in ordered[..n]
    {
      assert ordered[..n][i] == ordered[i];
    }
    forall d | d in FirstNew(ordered[..n], seen)
      ensures exists i :: 0 <= i < n && ordered[i] == d
    {
      var i :| 0 <= i < n && ordered[..n][i] == d;
      assert ordered[i] == d;
    }
  }

  /** Some of an order, at growing positions. */
  ghost predicate Selects(seg: seq<Deployment>, ordered: seq<Deployment>, idx: seq<nat>) {
    && |idx| == |seg|
    && (forall k :: 0 <= k < |idx| ==> idx[k] < |ordered| && seg[k] == ordered[idx[k]])
    && (forall j, k :: 0 <= j < k < |idx| ==> idx[j] < idx[k])
  }

  lemma SelectsOn(seg: seq<Deployment>, ordered: seq<Deployment>, idx: seq<nat>)
    requires ordered != [] && Selects(seg, ordered[..|ordered| - 1], idx)
    ensures Selects(seg, ordered, idx)
    ensures Selects(seg + [ordered[|ordered| - 1]], ordered, idx + [|ordered| - 1])
    ensures forall j: nat :: j in idx ==> j < |ordered| - 1
  {
    var init := ordered[..|ordered| - 1];
    assert forall k :: 0 <= k < |idx| ==> init[idx[k]] == ordered[idx[k]];
  }

  /** What is taken of an order are its new ones, and they stay in that order. */
  lemma {:induction false} NewOnesInOrder(ordered: seq<Deployment>, seen: set<Key>) returns (idx: seq<nat>)
    ensures Selects(FirstNew(ordered, seen), ordered, idx)
    ensures forall j :: 0 <= j < |ordered| ==> (j in idx <==> IsNew(ordered, seen, j))
    decreases |ordered|
  {
    hide IsNew, Keys, Selects, FirstNew;
    if ordered == [] {
      idx := [];
      SelectsNone();
      FirstNewStep(ordered, seen);
    } else {
      var n := |ordered| - 1;
      var before := NewOnesInOrder(ordered[..n], seen);
      IsNewEarlier(ordered, seen, n);
      FirstNewStep(ordered, seen);
      SelectsOn(FirstNew(ordered[..n], seen), ordered, before);
      idx := if IsNew(ordered, seen, n) then before + [n] else before;
    }
  }

  lemma FirstNewStep(ordered: seq<Deployment>, seen: set<Key>)
    ensures ordered == [] ==> FirstNew(ordered, seen) == []
    ensures ordered != [] ==>
              var n := |ordered| - 1;
              var before := FirstNew(ordered[..n], seen);
              FirstNew(ordered, seen) == if IsNew(ordered, seen, n) then before + [ordered[n]] else before
  {
    hide IsNew, Keys;
    if ordered != [] {
      LastIsNew(ordered, seen);
    }
  }

  lemma SelectsNone()
    ensures Selects([], [], [])
  {
  }

  predicate InGroups(groups: seq<seq<Deployment>>, d: Deployment) {
    exists i :: 0 <= i < |groups| && d in groups[i]
  }

  lemma InGroupsStep(groups: seq<seq<Deployment>>, d: Deployment)
    requires groups != []
    ensures var n := |groups| - 1; InGroups(groups, d) <==> InGroups(groups[..n], d) || d in groups[n]
  {
    var n := |groups| - 1;
    if InGroups(groups[..n], d) {
      var i :| 0 <= i < n && d in groups[..n][i];
      assert d in groups[i];
    }
    if i :| 0 <= i < |groups| && d in groups[i] && i < n {
      assert d in groups[..n][i];
    }
  }

  /** A resolution holds exactly the keys of its groups, each once, and nothing else. */
  lemma {:induction false} ResolutionHolds(orders: seq<seq<Deployment>>)
    ensures DistinctKeys(Resolution(orders))
    ensures forall d :: d in Resolution(orders) ==> InGroups(orders, d)
    ensures forall d :: InGroups(orders, d) ==> KeyOf(d) in Keys(Resolution(orders))
    decreases |orders|
  {
    if orders != [] {
      hide InGroups, Keys, DistinctKeys, FirstNew;
      var n := |orders| - 1;
      var before := Resolution(orders[..n]);
      var seg := FirstNew(orders[n], Keys(before));
      ResolutionHolds(orders[..n]);
      FirstNewHolds(orders[n], Keys(before));
      JoinDistinct(before, seg);
      JoinKeys(before, seg);
      forall d
        ensures InGroups(orders, d) <==> InGroups(orders[..n], d) || d in orders[n]
      {
        InGroupsStep(orders, d);
      }
    }
  }

  /** The head of the first order that is not empty heads the whole. */
  lemma {:induction false} HeadLeads(orders: seq<seq<Deployment>>, i: nat)
    requires i < |orders| && orders[i] != [] && forall j :: 0 <= j < i ==> orders[j] == []
    ensures Resolution(orders) != [] && Resolution(orders)[0] == orders[i][0]
    decreases |orders|
  {
    hide FirstNew;
    var n := |orders| - 1;
    if i < n {
      HeadLeads(orders[..n], i);
    } else {
      AllEmpty(orders[..n]);
      NoKeys();
      HeadIsNew(orders[n]);
    }
  }

  lemma {:induction false} AllEmpty(orders: seq<seq<Deployment>>)
    requires forall j :: 0 <= j < |orders| ==> orders[j] == []
    ensures Resolution(orders) == []
  {
    if orders != [] {
      AllEmpty(orders[..|orders| - 1]);
    }
  }

  lemma {:induction false} HeadIsNew(ordered: seq<Deployment>)
    requires ordered != []
    ensures FirstNew(ordered, {}) != [] && FirstNew(ordered, {})[0] == ordered[0]
    decreases |ordered|
  {
    var n := |ordered| - 1;
    if n > 0 {
      HeadIsNew(ordered[..n]);
    } else {
      assert ordered[..0] == [];
      NoKeys();
    }
  }

  // ---------------------------------------------------------------------
  // Leaving deployments out
  // ---------------------------------------------------------------------

  /** A test that looks at the key alone. */
  ghost predicate KeyDecides(p: Deployment -> bool) {
    forall d, e :: KeyOf(d) == KeyOf(e) ==> p(d) == p(e)
  }

  lemma KeptKeys(p: Deployment -> bool, ds: seq<Deployment>)
    requires KeyDecides(p)
    ensures Keys(Kept(p, ds)) <= Keys(ds)
    ensures forall d :: p(d) ==> (KeyOf(d) in Keys(ds) <==> KeyOf(d) in Keys(Kept(p, ds)))
  {
    hide Kept;
    forall d | p(d) && KeyOf(d) in Keys(ds)
      ensures KeyOf(d) in Keys(Kept(p, ds))
    {
      var e :| e in ds && KeyOf(e) == KeyOf(d);
      assert p(e) && e in Kept(p, ds);
    }
  }

  lemma KeptSnoc(p: Deployment -> bool, ds: seq<Deployment>, d: Deployment)
    ensures Kept(p, ds + [d]) == Kept(p, ds) + if p(d) then [d] else []
  {
    assert (ds + [d])[..|ds|] == ds;
  }

  lemma {:induction false} KeptConcat(p: Deployment -> bool, xs: seq<Deployment>, ys: seq<Deployment>)
    ensures Kept(p, xs + ys) == Kept(p, xs) + Kept(p, ys)
    decreases |ys|
  {
    if ys == [] {
      assert xs + ys == xs;
    } else {
      var n := |ys| - 1;
      assert (xs + ys)[..|xs + ys| - 1] == xs + ys[..n];
      KeptConcat(p, xs, ys[..n]);
    }
  }

  /** Leaving out every deployment of some keys leaves the new ones of what remains. */
  lemma {:induction false} KeptFirstNew(p: Deployment -> bool, ordered: seq<Deployment>, seen: set<Key>, keptSeen: set<Key>)
    requires KeyDecides(p)
    requires forall d :: p(d) ==> (KeyOf(d) in seen <==> KeyOf(d) in keptSeen)
    ensures Kept(p, FirstNew(ordered, seen)) == FirstNew(Kept(p, ordered), keptSeen)
    decreases |ordered|
  {
    hide Kept, KeyDecides, Keys;
    if ordered == [] {
      KeptNone(p);
    } else {
      var n := |ordered| - 1;
      var d, init := ordered[n], ordered[..n];
      KeptFirstNew(p, init, seen, keptSeen);
      assert ordered == init + [d];
      KeptSnoc(p, init, d);
      KeptSnoc(p, FirstNew(init, seen), d);
      KeptKeys(p, FirstNew(init, seen));
      if p(d) {
        var kept := Kept(p, init) + [d];
        assert kept[..|kept| - 1] == Kept(p, init);
      } else {
        assert Kept(p, init) + [] == Kept(p, init);
        assert Kept(p, FirstNew(init, seen)) + [] == Kept(p, FirstNew(init, seen));
      }
    }
  }

  lemma KeptNone(p: Deployment -> bool)
    ensures Kept(p, []) == []
  {
  }

  function KeptEach(p: Deployment -> bool, orders: seq<seq<Deployment>>): (r: seq<seq<Deployment>>)
    ensures |r| == |orders|
    ensures forall i :: 0 <= i < |orders| ==> r[i] == Kept(p, orders[i])
  {
    seq(|orders|, i requires 0 <= i < |orders| => Kept(p, orders[i]))
  }

  /** Leaving out every deployment of some keys leaves the resolution of what remains, in order. */
  lemma {:induction false} KeptResolution(p: Deployment -> bool, orders: seq<seq<Deployment>>)
    requires KeyDecides(p)
    ensures Kept(p, Resolution(orders)) == Resolution(KeptEach(p, orders))
    decreases |orders|
  {
    hide KeyDecides, Keys, Kept, FirstNew;
    if orders == [] {
      KeptNone(p);
    } else {
      var n := |orders| - 1;
      var before := Resolution(orders[..n]);
      KeptResolution(p, orders[..n]);
      assert KeptEach(p, orders)[..n] == KeptEach(p, orders[..n]);
      KeptKeys(p, before);
      KeptFirstNew(p, orders[n], Keys(before), Keys(Kept(p, before)));
      KeptConcat(p, before, FirstNew(orders[n], Keys(before)));
    }
  }

  lemma {:induction false} KeptCounts(p: Deployment -> bool, ds: seq<Deployment>, d: Deployment)
    ensures multiset(Kept(p, ds))[d] == if p(d) then multiset(ds)[d] else 0
    decreases |ds|
  {
    if ds != [] {
      var n := |ds| - 1;
      KeptCounts(p, ds[..n], d);
      assert ds == ds[..n] + [ds[n]];
    }
  }

  /** Orders of the groups, with the same left out, are orders of what remains. */
  lemma KeptOrders(p: Deployment -> bool, groups: seq<seq<Deployment>>, orders: seq<seq<Deployment>>)
    requires AreOrders(groups, orders)
    ensures AreOrders(KeptEach(p, groups), KeptEach(p, orders))
  {
    hide Kept;
    forall i | 0 <= i < |groups|
      ensures multiset(Kept(p, orders[i])) == multiset(Kept(p, groups[i]))
    {
      forall d
        ensures multiset(Kept(p, orders[i]))[d] == multiset(Kept(p, groups[i]))[d]
      {
        KeptCounts(p, orders[i], d);
        KeptCounts(p, groups[i], d);
      }
    }
  }

  // ---------------------------------------------------------------------
  // Resolving
  // ---------------------------------------------------------------------

  function EligibleFor(req: Request): Deployment -> bool {
    d => Eligible(req, d)
  }

  function AccessFor(c: Caller): Deployment -> bool {
    d => PassesAccess(c, d)
  }

  /** Takes the deployments whose key is new, in the strategy's order. */
  method Collect(ordered: seq<Deployment>, out: seq<Deployment>) returns (seg: seq<Deployment>)
    ensures seg == FirstNew(ordered, Keys(out))
  {
    seg := [];
    for i := 0 to |ordered|
      invariant seg == FirstNew(ordered[..i], Keys(out))
    {
      var d := ordered[i];
      assert ordered[..i + 1][..i] == ordered[..i];
      if KeyOf(d) !in Keys(out) && KeyOf(d) !in Keys(seg) {
        seg := seg + [d];
      }
    }
    assert ordered[..|ordered|] == ordered;
  }

  /** Whether each group has been put in some order of its own. */
  predicate AreOrders(groups: seq<seq<Deployment>>, orders: seq<seq<Deployment>>) {
    |orders| == |groups| && forall i :: 0 <= i < |groups| ==> multiset(orders[i]) == multiset(groups[i])
  }

  lemma OrderedGroupsHold(groups: seq<seq<Deployment>>, orders: seq<seq<Deployment>>, d: Deployment)
    requires AreOrders(groups, orders)
    ensures InGroups(groups, d) <==> InGroups(orders, d)
  {
    forall i | 0 <= i < |groups|
      ensures d in groups[i] <==> d in orders[i]
    {
      assert d in groups[i] <==> d in multiset(groups[i]);
      assert d in orders[i] <==> d in multiset(orders[i]);
    }
  }

  lemma EmptyResolution(orders: seq<seq<Deployment>>)
    ensures Resolution(orders) == [] <==> forall i :: 0 <= i < |orders| ==> orders[i] == []
  {
    hide Resolution;
    if i :| 0 <= i < |orders| && orders[i] != [] {
      ResolutionHolds(orders);
      assert orders[i][0] in orders[i];
      assert InGroups(orders, orders[i][0]);
    } else {
      AllEmpty(orders);
    }
  }

  /** Resolves a name: the survivors of the canonical model, then of each fallback, each
      group in the order its strategy put it, each key once; or none when none survive. */
  method Resolve(snap: Snapshot, requested: string, req: Request, orders: seq<seq<Deployment>>)
    returns (out: Option<seq<Deployment>>)
    requires AreOrders(Groups(snap, Tried(snap, requested), EligibleFor(req)), orders)
    ensures var groups := Groups(snap, Tried(snap, requested), EligibleFor(req));
            match out
            case Some(list) => list != [] && list == Resolution(orders)
            case None => forall i :: 0 <= i < |groups| ==> groups[i] == []
  {
    hide Groups, Tried;
    ghost var groups := Groups(snap, Tried(snap, requested), EligibleFor(req));
    var list := [];
    for i := 0 to |orders|
      invariant list == Resolution(orders[..i])
    {
      var seg := Collect(orders[i], list);
      assert orders[..i + 1][..i] == orders[..i];
      list := list + seg;
    }
    assert orders[..|orders|] == orders;
    if list == [] {
      EmptyResolution(orders);
      forall i | 0 <= i < |groups|
        ensures groups[i] == []
      {
        assert multiset(orders[i]) == multiset(groups[i]);
        assert |multiset(groups[i])| == |groups[i]|;
      }
      out := None;
    } else {
      out := Some(list);
    }
  }

  /** What a policy permits, routing does not exclude. */
  lemma AccessImpliesEligible(c: Caller, d: Deployment)
    requires PassesAccess(c, d)
    ensures Eligible(RouteRequest(c), d)
  {
  }

  lemma {:induction false} KeptTwice(c: Caller, ds: seq<Deployment>)
    ensures Kept(AccessFor(c), Kept(EligibleFor(RouteRequest(c)), ds)) == Kept(AccessFor(c), ds)
    decreases |ds|
  {
    if ds != [] {
      hide PassesAccess, Eligible, RouteRequest;
      var n := |ds| - 1;
      KeptTwice(c, ds[..n]);
      if PassesAccess(c, ds[n]) {
        AccessImpliesEligible(c, ds[n]);
      }
      KeptConcat(AccessFor(c), Kept(EligibleFor(RouteRequest(c)), ds[..n]), [ds[n]]);
      assert [ds[n]][..0] == [];
    }
  }

  /**
   The candidates dispatch tries are exactly the permitted, unexcluded deployments
   of the canonical model and then of its fallbacks, one for each provider,
   upstream model and model.
   */
  lemma CandidatesAreThePermitted(snap: Snapshot, requested: string, c: Caller, orders: seq<seq<Deployment>>)
    requires AreOrders(Groups(snap, Tried(snap, requested), EligibleFor(RouteRequest(c))), orders)
    ensures var kept := KeptEach(AccessFor(c), orders);
            && AreOrders(Groups(snap, Tried(snap, requested), AccessFor(c)), kept)
            && Kept(AccessFor(c), Resolution(orders)) == Resolution(kept)
  {
    hide Tried, Kept, Resolution;
    var names := Tried(snap, requested);
    var groups := Groups(snap, names, EligibleFor(RouteRequest(c)));
    forall i | 0 <= i < |names|
      ensures Kept(AccessFor(c), groups[i]) == Groups(snap, names, AccessFor(c))[i]
    {
      KeptTwice(c, Deployments(snap, names[i]));
    }
    assert KeptEach(AccessFor(c), groups) == Groups(snap, names, AccessFor(c));
    KeptOrders(AccessFor(c), groups, orders);
    AccessIsKeyDecided(c);
    KeptResolution(AccessFor(c), orders);
  }

  lemma AccessIsKeyDecided(c: Caller)
    ensures KeyDecides(AccessFor(c))
  {
  }

  /** A model discovery lists under a policy has a candidate under that policy. */
  lemma ListedModelsResolve(snap: Snapshot, access: Policy, d: Deployment, name: string, orders: seq<seq<Deployment>>)
    requires name in snap.models && d in snap.models[name]
    requires PermitsModel(access, d.modelId) && PermitsProvider(access, d.providerId)
    requires AreOrders(Groups(snap, Tried(snap, name), EligibleFor(RouteRequest(Caller(access, {}, {})))), orders)
    ensures Kept(AccessFor(Caller(access, {}, {})), Resolution(orders)) != []
  {
    hide Kept, Resolution, AreOrders;
    var c := Caller(access, {}, {});
    CandidatesAreThePermitted(snap, name, c, orders);
    var groups := Groups(snap, Tried(snap, name), AccessFor(c));
    assert d in groups[0];
    assert InGroups(groups, d);
    OrderedGroupsHold(groups, KeptEach(AccessFor(c), orders), d);
    ResolutionHolds(KeptEach(AccessFor(c), orders));
  }
}
