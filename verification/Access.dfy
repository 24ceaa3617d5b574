/** Allow and deny lists over models and providers (yb-core/src/model.rs). */
module Access {

  datatype Policy = Policy(
    allowedModels: seq<string>, deniedModels: seq<string>,
    allowedProviders: seq<string>, deniedProviders: seq<string>)

  /** Deny wins; a non-empty allow list is a ceiling. */
  predicate Permits(allowed: seq<string>, denied: seq<string>, id: string) {
    id !in denied && (allowed != [] ==> id in allowed)
  }

  predicate PermitsModel(p: Policy, id: string) {
    Permits(p.allowedModels, p.deniedModels, id)
  }

  predicate PermitsProvider(p: Policy, id: string) {
    Permits(p.allowedProviders, p.deniedProviders, id)
  }

  /** The first list, and what the second adds to it. */
  function Gathered(a: seq<string>, b: seq<string>): (out: seq<string>)
    ensures a <= out
    ensures forall x :: x in out <==> x in a || x in b
  {
    if b == [] then a
    else
      var n := |b| - 1;
      var before := Gathered(a, b[..n]);
      assert forall x :: x in b <==> x in b[..n] || x == b[n];
      if b[n] in before then before else before + [b[n]]
  }

  method Union(a: seq<string>, b: seq<string>) returns (out: seq<string>)
    ensures out == Gathered(a, b)
  {
    out := a;
    for i := 0 to |b|
      invariant out == Gathered(a, b[..i])
    {
      assert b[..i + 1][..i] == b[..i];
      if b[i] !in out {
        out := out + [b[i]];
      }
    }
    assert b[..|b|] == b;
  }

  function Common(a: seq<string>, b: seq<string>): (out: seq<string>)
    ensures forall x :: x in out <==> x in a && x in b
  {
    if a == [] then []
    else
      var n := |a| - 1;
      var rest := Common(a[..n], b);
      assert forall x :: x in a <==> x in a[..n] || x == a[n];
      if a[n] in b then rest + [a[n]] else rest
  }

  function IntersectAllow(a: seq<string>, b: seq<string>): seq<string> {
    if a == [] then b else if b == [] then a else Common(a, b)
  }

  /** Both lists restrict and nothing is on both. */
  predicate Clash(a: seq<string>, b: seq<string>) {
    a != [] && b != [] && forall x :: x in a ==> x !in b
  }

  function Merged(a: Policy, b: Policy): Policy {
    Policy(IntersectAllow(a.allowedModels, b.allowedModels), Gathered(a.deniedModels, b.deniedModels),
           IntersectAllow(a.allowedProviders, b.allowedProviders), Gathered(a.deniedProviders, b.deniedProviders))
  }

  method Merge(a: Policy, b: Policy) returns (p: Policy)
    ensures p == Merged(a, b)
  {
    var deniedModels := Union(a.deniedModels, b.deniedModels);
    var deniedProviders := Union(a.deniedProviders, b.deniedProviders);
    var models := IntersectAllow(a.allowedModels, b.allowedModels);
    var providers := IntersectAllow(a.allowedProviders, b.allowedProviders);
    p := Policy(models, deniedModels, providers, deniedProviders);
  }

  /**
   A merged policy permits what both parts permit; but two ceilings that share
   nothing meet in an empty list, which reads as no ceiling, so then it permits
   whatever neither part denies.
   */
  lemma MergedPermits(a: Policy, b: Policy, id: string)
    ensures PermitsModel(Merged(a, b), id) <==>
              if Clash(a.allowedModels, b.allowedModels) then id !in a.deniedModels && id !in b.deniedModels
              else PermitsModel(a, id) && PermitsModel(b, id)
    ensures PermitsProvider(Merged(a, b), id) <==>
              if Clash(a.allowedProviders, b.allowedProviders) then id !in a.deniedProviders && id !in b.deniedProviders
              else PermitsProvider(a, id) && PermitsProvider(b, id)
  {
    hide Gathered, Common;
    ClashIsEmpty(a.allowedModels, b.allowedModels);
    ClashIsEmpty(a.allowedProviders, b.allowedProviders);
  }

  /** Two policies that allow one model each, and together allow a third that neither does. */
  lemma AClash()
    ensures var a, b := Policy(["x"], [], [], []), Policy(["y"], [], [], []);
            PermitsModel(Merged(a, b), "z") && !PermitsModel(a, "z") && !PermitsModel(b, "z")
  {
    var a, b := Policy(["x"], [], [], []), Policy(["y"], [], [], []);
    MergedPermits(a, b, "z");
    assert Clash(["x"], ["y"]);
  }

  lemma ClashIsEmpty(a: seq<string>, b: seq<string>)
    ensures a != [] && b != [] ==> (IntersectAllow(a, b) == [] <==> Clash(a, b))
  {
    if a != [] && b != [] {
      if IntersectAllow(a, b) == [] {
        assert forall x :: x in a && x in b ==> x in Common(a, b);
      } else {
        assert Common(a, b)[0] in Common(a, b);
      }
    }
  }
}
