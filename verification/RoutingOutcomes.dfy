/**
 Who serves a name (yb-gateway/src/router.rs and yb-gateway/src/service.rs), said of the
 tables, the caller's lists and the deployments' fields alone.
 */
module RoutingOutcomes {
  import opened Router

  /** A name, what it is an alias of, and so on, at most eight times, to a model that has
      deployments or a name that is no alias. */
  ghost predicate Chain(snap: Snapshot, names: seq<string>) {
    && 1 <= |names| <= 9
    && (forall i :: 0 <= i < |names| - 1 ==>
          names[i] !in snap.models && names[i] in snap.aliases && snap.aliases[names[i]] == names[i + 1])
    && (|names| < 9 ==> names[|names| - 1] in snap.models || names[|names| - 1] !in snap.aliases)
  }

  lemma {:induction false} FollowsChain(snap: Snapshot, names: seq<string>, i: nat)
    requires Chain(snap, names) && i < |names|
    ensures Follow(snap, names[i], 8 - i) == names[|names| - 1]
    decreases |names| - i
  {
    if i < |names| - 1 {
      FollowsChain(snap, names, i + 1);
    }
  }

  /** An alias is tried as the model it leads to, with that model's own fallbacks after it. */
  lemma TriedIs(snap: Snapshot, names: seq<string>)
    requires Chain(snap, names)
    ensures var (tried, model) := (Tried(snap, names[0]), names[|names| - 1]);
            && tried[0] == model
            && (model in snap.fallbacks ==> tried[1..] == snap.fallbacks[model])
            && (model !in snap.fallbacks ==> |tried| == 1)
            && (|names| < 9 ==> tried == Tried(snap, model))
  {
    FollowsChain(snap, names, 0);
  }

  // ---------------------------------------------------------------------
  // Candidates
  // ---------------------------------------------------------------------

  /** What the caller's lists and context leave it: nothing denied or excluded, and where there is
      an allow list only what is on it. */
  ghost predicate May(c: Caller, d: Deployment) {
    && d.modelId !in c.access.deniedModels && d.modelId !in c.excludedModels
    && (c.access.allowedModels == [] || d.modelId in c.access.allowedModels)
    && d.providerId !in c.access.deniedProviders && d.providerId !in c.excludedProviders
    && (c.access.allowedProviders == [] || d.providerId in c.access.allowedProviders)
  }

  lemma MayIff(c: Caller, d: Deployment)
    ensures PassesAccess(c, d) <==> May(c, d)
  {
  }

  /** Routing itself looks at all of that but the allow list over models. */
  lemma RoutedIff(c: Caller, d: Deployment)
    ensures Eligible(RouteRequest(c), d) <==> May(c.(access := c.access.(allowedModels := [])), d)
  {
  }

  ghost predicate SameTarget(d: Deployment, e: Deployment) {
    (d.providerId, d.upstreamModel, d.modelId) == (e.providerId, e.upstreamModel, e.modelId)
  }

  ghost predicate Serves(snap: Snapshot, names: seq<string>, d: Deployment) {
    exists i :: 0 <= i < |names| && names[i] in snap.models && d in snap.models[names[i]]
  }

  /** The candidates are deployments of the names tried that the caller may use; no two have one
      provider, upstream model and model; and each that it may use is there, or one like it. */
  lemma CandidatesAre(snap: Snapshot, requested: string, c: Caller, orders: seq<seq<Deployment>>)
    requires AreOrders(Groups(snap, Tried(snap, requested), EligibleFor(RouteRequest(c))), orders)
    ensures var (names, list) := (Tried(snap, requested), Kept(AccessFor(c), Resolution(orders)));
            && (forall d :: d in list ==> May(c, d) && Serves(snap, names, d))
            && (forall i, j :: 0 <= i < j < |list| ==> !SameTarget(list[i], list[j]))
            && (forall d :: May(c, d) && Serves(snap, names, d) ==> exists e :: e in list && SameTarget(d, e))
  {
    hide Tried, Kept, Resolution, PassesAccess, May, KeptEach, AreOrders, DistinctKeys;
    var names := Tried(snap, requested);
    CandidatesAreThePermitted(snap, requested, c, orders);
    var kept, groups := KeptEach(AccessFor(c), orders), Groups(snap, names, AccessFor(c));
    var list := Resolution(kept);
    ResolutionHolds(kept);
    forall d ensures InGroups(kept, d) <==> May(c, d) && Serves(snap, names, d) {
      OrderedGroupsHold(groups, kept, d);
      MayIff(c, d);
      InGroupsIff(snap, names, c, d);
    }
    forall d | InGroups(kept, d) ensures exists e :: e in list && SameTarget(d, e) {
      KeyInKeys(list, d);
    }
    DistinctTargets(list);
  }

  lemma InGroupsIff(snap: Snapshot, names: seq<string>, c: Caller, d: Deployment)
    ensures InGroups(Groups(snap, names, AccessFor(c)), d) <==> PassesAccess(c, d) && Serves(snap, names, d)
  {
    hide PassesAccess;
    var groups := Groups(snap, names, AccessFor(c));
    forall i | 0 <= i < |names|
      ensures d in groups[i] <==> PassesAccess(c, d) && names[i] in snap.models && d in snap.models[names[i]]
    {
      assert AccessFor(c)(d) == PassesAccess(c, d);
    }
  }

  lemma KeyInKeys(list: seq<Deployment>, d: Deployment)
    requires KeyOf(d) in Keys(list)
    ensures exists e :: e in list && SameTarget(d, e)
  {
    var e :| e in list && KeyOf(e) == KeyOf(d);
    assert SameTarget(d, e);
  }

  lemma DistinctTargets(list: seq<Deployment>)
    requires DistinctKeys(list)
    ensures forall i, j :: 0 <= i < j < |list| ==> !SameTarget(list[i], list[j])
  {
  }
}
