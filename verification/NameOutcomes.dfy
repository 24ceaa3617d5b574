/**
 What the operations on public names do (yb-store/src/sqlite.rs and yb-server/src/admin.rs),
 said of the tables alone: when each goes through, whose the names are afterwards, and that
 nothing else moves.
 */
module NameOutcomes {
  import opened Prelude
  import opened NameRegistry

  /** All models but this one keep their names, and no other comes or goes. */
  ghost predicate OtherModelsKept(r: Registry, t: Registry, id: string) {
    forall other :: other != id ==>
      (other in t.models <==> other in r.models) && (other in r.models ==> t.models[other] == r.models[other])
  }

  /** All aliases but these keep their models, and no other comes or goes. */
  ghost predicate OtherAliasesKept(r: Registry, t: Registry, names: set<string>) {
    forall a :: a !in names ==>
      (a in t.aliases <==> a in r.aliases) && (a in r.aliases ==> t.aliases[a] == r.aliases[a])
  }

  ghost predicate IsNamed(r: Registry, id: string, name: string) {
    id in r.models && r.models[id] == name
  }

  /** A rename goes through if and only if the model exists and no other has the new name, as its
      own or as an alias; then the new name is the model's and the old one is its alias. */
  lemma RenameDoes(r: Registry, id: string, newName: string)
    requires Clean(r)
    ensures var (t, out) := Next(r, Rename(id, newName));
            && (out == NotFound <==> id !in r.models)
            && (out == Ok <==>
                  && id in r.models && (forall other :: IsNamed(r, other, newName) ==> other == id)
                  && (newName in r.aliases ==> r.aliases[newName] == id))
            && (out == NotFound || out == Conflict || out == Ok)
            && (out != Ok ==> t == r)
            && (out == Ok ==>
                  && IsNamed(t, id, newName)
                  && (r.models[id] != newName ==> r.models[id] in t.aliases && t.aliases[r.models[id]] == id)
                  && newName !in t.aliases
                  && Belongs(t, newName, id) && Belongs(t, r.models[id], id)
                  && OtherModelsKept(r, t, id) && OtherAliasesKept(r, t, {newName, r.models[id]}))
  {
    if other :| other in r.models && other != id && r.models[other] == newName {
      assert IsNamed(r, other, newName);
    }
  }

  /** A name is ensured unless it is an alias; a model is made for it only if none has it. */
  lemma EnsureDoes(r: Registry, name: string, newId: string)
    requires Clean(r) && newId !in r.models
    ensures var (t, out) := Next(r, Step.EnsureModel(name, newId));
            && out == (if name in r.aliases then Conflict else Ok)
            && (out == Ok ==> exists id :: IsNamed(t, id, name))
            && (out == Ok && (forall id :: !IsNamed(r, id, name)) ==>
                  IsNamed(t, newId, name) && OtherModelsKept(r, t, newId) && t.aliases == r.aliases)
            && (out != Ok || (exists id :: IsNamed(r, id, name)) ==> t == r)
  {
    var (t, out) := Next(r, Step.EnsureModel(name, newId));
    if id :| IsNamed(r, id, name) {
      assert Taken(r, name) && IsNamed(t, id, name);
    } else {
      assert forall id :: id in r.models ==> IsNamed(r, id, r.models[id]);
      assert out == Ok ==> IsNamed(t, newId, name);
    }
  }

  // ---------------------------------------------------------------------
  // Aliases
  // ---------------------------------------------------------------------

  predicate AllSpace(s: string) {
    forall i :: 0 <= i < |s| ==> IsSpace(s[i])
  }

  ghost predicate Around(s: string, before: string, name: string, after: string) {
    s == before + name + after && AllSpace(before) && AllSpace(after)
  }

  ghost predicate IsTrimmed(s: string, name: string) {
    && (exists before, after :: Around(s, before, name, after))
    && (name != "" ==> !IsSpace(name[0]) && !IsSpace(name[|name| - 1]))
  }

  /** What a text names: itself without the space around it, of 1 to 200 characters of which none
      is an ASCII control character. */
  ghost predicate Names(s: string, name: string) {
    && IsTrimmed(s, name) && 1 <= |name| <= 200
    && forall i :: 0 <= i < |name| ==> 32 <= name[i] as int && name[i] as int != 127
  }

  lemma {:induction false} TrimmedStart(before: string, s: string)
    requires AllSpace(before) && s != "" && !IsSpace(s[0])
    ensures TrimStart(before + s) == s
    decreases |before|
  {
    hide IsSpace;
    if before != "" {
      assert (before + s)[1..] == before[1..] + s;
      TrimmedStart(before[1..], s);
    } else {
      assert before + s == s;
    }
  }

  lemma {:induction false} TrimmedEnd(s: string, after: string)
    requires AllSpace(after) && s != "" && !IsSpace(s[|s| - 1])
    ensures TrimEnd(s + after) == s
    decreases |after|
  {
    hide IsSpace;
    if after != "" {
      var n := |after| - 1;
      assert (s + after)[..|s + after| - 1] == s + after[..n];
      assert (s + after)[|s + after| - 1] == after[n];
      TrimmedEnd(s, after[..n]);
    } else {
      assert s + after == s;
    }
  }

  lemma TrimIff(s: string, name: string)
    requires name != ""
    ensures Trim(s) == name <==> IsTrimmed(s, name)
  {
    if IsTrimmed(s, name) {
      var before, after :| Around(s, before, name, after);
      assert before + name + after == before + (name + after);
      TrimmedStart(before, name + after);
      TrimmedEnd(name, after);
    } else if Trim(s) == name {
      TrimSplits(s);
    }
  }

  lemma TrimSplits(s: string)
    ensures IsTrimmed(s, Trim(s))
  {
    hide IsSpace, AllSpace, TrimStart, TrimEnd;
    var rest := TrimStart(s);
    TrimStartDrops(s);
    var after := TrimEndDrops(rest);
    var before, name := s[..|s| - |rest|], TrimEnd(rest);
    ConcatAssoc(before, name, after);
    assert Around(s, before, name, after);
    TrimmedEnds(s);
  }

  lemma TrimmedEnds(s: string)
    ensures var name := Trim(s); name != "" ==> !IsSpace(name[0]) && !IsSpace(name[|name| - 1])
  {
    hide IsSpace;
    var rest := TrimStart(s);
    assert TrimEnd(rest) != "" ==> TrimEnd(rest)[0] == rest[0];
  }

  lemma TrimEndDrops(s: string) returns (after: string)
    ensures s == TrimEnd(s) + after && AllSpace(after)
  {
    after := s[|TrimEnd(s)|..];
  }

  lemma PublicNameIff(s: string, name: string)
    ensures PublicName(s) == Some(name) <==> Names(s, name)
  {
    hide IsTrimmed, IsSpace, AllSpace, TrimStart, TrimEnd, Trim;
    if name != "" {
      TrimIff(s, name);
    }
  }

  lemma {:induction false} TrimStartDrops(s: string)
    ensures AllSpace(s[..|s| - |TrimStart(s)|])
    decreases |s|
  {
    if s != "" && IsSpace(s[0]) {
      TrimStartDrops(s[1..]);
      var n := |s| - |TrimStart(s)|;
      assert s[..n] == [s[0]] + s[1..][..n - 1];
    }
  }

  /** An alias is made if and only if both names are given and differ, the alias is a proper name
      that no model has, and some model has the target's; then it is that model's. */
  lemma CreateAliasDoes(r: Registry, alias: string, target: string)
    requires Clean(r)
    ensures var (t, out) := Next(r, Step.CreateAlias(alias, target));
            && (out == BadRequest <==>
                  alias == "" || target == "" || alias == target || forall name :: !Names(alias, name))
            && (out == NotFound <==> out != BadRequest && forall id :: !IsNamed(r, id, target))
            && (out == Conflict <==>
                  && out != BadRequest && out != NotFound
                  && exists name, id :: Names(alias, name) && IsNamed(r, id, name))
            && (out != Ok ==> t == r)
            && (out == Ok ==> exists name, id ::
                  && Names(alias, name) && IsNamed(r, id, target)
                  && name in t.aliases && t.aliases[name] == id && Belongs(t, name, id)
                  && t.models == r.models && OtherAliasesKept(r, t, {name}))
  {
    hide PublicName, Names;
    var (t, out) := Next(r, Step.CreateAlias(alias, target));
    forall name ensures PublicName(alias) == Some(name) <==> Names(alias, name) {
      PublicNameIff(alias, name);
    }
    assert (exists name :: Names(alias, name)) <==> PublicName(alias).Some? by {
      if PublicName(alias).Some? {
        assert Names(alias, PublicName(alias).value);
      }
    }
    TakenIff(r, target);
    if PublicName(alias).Some? {
      var name := PublicName(alias).value;
      TakenIff(r, name);
      if out == Ok {
        var id := OwnerOf(r, target);
        assert IsNamed(r, id, target);
        assert Names(alias, name) && name in t.aliases && t.aliases[name] == id;
      }
    }
  }

  lemma TakenIff(r: Registry, name: string)
    ensures Taken(r, name) <==> exists id :: IsNamed(r, id, name)
  {
    if id :| id in r.models && r.models[id] == name {
      assert IsNamed(r, id, name);
    }
  }

  /** A deleted alias is nobody's, and nothing else moves. */
  lemma DeleteAliasDoes(r: Registry, alias: string)
    ensures var (t, out) := Next(r, Step.DeleteAlias(alias));
            out == Ok && alias !in t.aliases && t.models == r.models && OtherAliasesKept(r, t, {alias})
  {
  }
}
