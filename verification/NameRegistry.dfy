/**
 Public model names and aliases (yb-store/src/sqlite.rs and
 yb-server/src/admin.rs), and what a client that sends one is served by after
 the router reloads (yb-gateway/src/router.rs).
 */
module NameRegistry {
  import opened Prelude
  import opened Router

  /** The tables: each model's current name, and each alias's model. */
  datatype Registry = Registry(models: map<string, string>, aliases: map<string, string>)

  datatype Result = Ok | NotFound | Conflict | BadRequest

  const EMPTY_REGISTRY := Registry(map[], map[])

  /** The model a name belongs to, as a model's own name or as an alias. */
  ghost predicate Belongs(r: Registry, name: string, id: string) {
    (id in r.models && r.models[id] == name) || (name in r.aliases && r.aliases[name] == id)
  }

  /** A name is one model's or one alias's, never both; aliases point at models. */
  ghost predicate Clean(r: Registry) {
    && (forall a, b :: a in r.models && b in r.models && r.models[a] == r.models[b] ==> a == b)
    && (forall a :: a in r.models ==> r.models[a] !in r.aliases)
    && (forall n :: n in r.aliases ==> r.aliases[n] in r.models)
  }

  predicate Taken(r: Registry, name: string) {
    exists id :: id in r.models && r.models[id] == name
  }

  // ---------------------------------------------------------------------
  // Operations
  // ---------------------------------------------------------------------

  datatype Step =
    | EnsureModel(name: string, newId: string)
    | Rename(id: string, newName: string)
    | CreateAlias(alias: string, target: string)
    | DeleteAlias(alias: string)

  /** The new id is a fresh one, as a random identifier is. */
  predicate Fresh(r: Registry, step: Step) {
    step.EnsureModel? ==> step.newId !in r.models
  }

  ghost function OwnerOf(r: Registry, name: string): (id: string)
    requires Taken(r, name)
    ensures id in r.models && r.models[id] == name
  {
    var id :| id in r.models && r.models[id] == name;
    id
  }

  function Ensured(r: Registry, name: string, newId: string): (Registry, Result) {
    if name in r.aliases then (r, Conflict)
    else if Taken(r, name) then (r, Ok)
    else (r.(models := r.models[newId := name]), Ok)
  }

  /** The old name is left behind as an alias; an alias of the model's own is taken up. */
  function Renamed(r: Registry, id: string, newName: string): (Registry, Result) {
    if id !in r.models then (r, NotFound)
    else if r.models[id] == newName then (r, Ok)
    else if exists other :: other in r.models && other != id && r.models[other] == newName then (r, Conflict)
    else if newName in r.aliases && r.aliases[newName] != id then (r, Conflict)
    else
      var freed := r.aliases - {newName};
      (Registry(r.models[id := newName], freed[r.models[id] := id]), Ok)
  }

  /** Trimmed, not empty, at most 200 characters, none a control character. */
  function PublicName(s: string): Option<string> {
    var t := Trim(s);
    if t == "" || |t| > 200 || exists i :: 0 <= i < |t| && (t[i] < ' ' || t[i] == '\U{7F}') then None else Some(t)
  }

  ghost function AliasCreated(r: Registry, alias: string, target: string): (Registry, Result) {
    if alias == "" || target == "" || alias == target || PublicName(alias) == None then (r, BadRequest)
    else if !Taken(r, target) then (r, NotFound)
    else if Taken(r, PublicName(alias).value) then (r, Conflict)
    else (r.(aliases := r.aliases[PublicName(alias).value := OwnerOf(r, target)]), Ok)
  }

  ghost function Next(r: Registry, step: Step): (Registry, Result) {
    match step
    case EnsureModel(name, newId) => Ensured(r, name, newId)
    case Rename(id, newName) => Renamed(r, id, newName)
    case CreateAlias(alias, target) => AliasCreated(r, alias, target)
    case DeleteAlias(alias) => (r.(aliases := r.aliases - {alias}), Ok)
  }

  // ---------------------------------------------------------------------
  // What every operation keeps
  // ---------------------------------------------------------------------

  lemma StepKeepsClean(r: Registry, step: Step)
    requires Clean(r) && Fresh(r, step)
    ensures Clean(Next(r, step).0)
  {
    hide PublicName;
    match step
    case EnsureModel(name, newId) =>
    case Rename(id, newName) => RenameKeepsClean(r, id, newName);
    case CreateAlias(alias, target) =>
    case DeleteAlias(alias) =>
  }

  lemma RenameKeepsClean(r: Registry, id: string, newName: string)
    requires Clean(r)
    ensures Clean(Renamed(r, id, newName).0)
  {
  }

  /** The only ways a name is taken from its model: its alias deleted, or pointed at another. */
  ghost predicate Unbinds(r: Registry, step: Step, name: string, id: string) {
    match step
    case DeleteAlias(alias) => alias == name && name in r.aliases
    case CreateAlias(alias, target) =>
      AliasCreated(r, alias, target).1 == Ok && PublicName(alias) == Some(name) && OwnerOf(r, target) != id
    case _ => false
  }

  /** A name keeps belonging to its model across any operation but those. */
  lemma NameStaysIff(r: Registry, step: Step, name: string, id: string)
    requires Clean(r) && Fresh(r, step) && Belongs(r, name, id)
    ensures Belongs(Next(r, step).0, name, id) <==> !Unbinds(r, step, name, id)
  {
    hide PublicName;
  }

  /** A run of operations from a registry, each with a fresh id of its own. */
  ghost predicate AllFresh(r: Registry, steps: seq<Step>)
    decreases |steps|
  {
    steps == [] || (Fresh(r, steps[0]) && AllFresh(Next(r, steps[0]).0, steps[1..]))
  }

  ghost function Run(r: Registry, steps: seq<Step>): Registry
    decreases |steps|
  {
    if steps == [] then r else Run(Next(r, steps[0]).0, steps[1..])
  }

  ghost predicate NeverUnbound(r: Registry, steps: seq<Step>, name: string, id: string)
    decreases |steps|
  {
    steps == [] || (!Unbinds(r, steps[0], name, id) && NeverUnbound(Next(r, steps[0]).0, steps[1..], name, id))
  }

  /** Over every sequence of operations the registry stays clean, and every name a
      model has had stays that model's unless its alias is deleted or repointed. */
  lemma {:induction false} NamesOutliveRenames(r: Registry, steps: seq<Step>, name: string, id: string)
    requires Clean(r) && AllFresh(r, steps)
    ensures Clean(Run(r, steps))
    ensures Belongs(r, name, id) && NeverUnbound(r, steps, name, id) ==> Belongs(Run(r, steps), name, id)
    decreases |steps|
  {
    if steps != [] {
      hide Next, Unbinds, Fresh;
      StepKeepsClean(r, steps[0]);
      if Belongs(r, name, id) {
        NameStaysIff(r, steps[0], name, id);
      }
      NamesOutliveRenames(Next(r, steps[0]).0, steps[1..], name, id);
    }
  }

  // ---------------------------------------------------------------------
  // What a name is served by
  // ---------------------------------------------------------------------

  datatype Record = Record(modelId: string, providerId: string, upstreamModel: string)

  /** The deployments with their models' current names, as the store lists them. */
  function Listed(r: Registry, records: seq<Record>): seq<Deployment>
    requires forall i :: 0 <= i < |records| ==> records[i].modelId in r.models
  {
    if records == [] then []
    else
      var n := |records| - 1;
      var d := records[n];
      Listed(r, records[..n]) + [Deployment(d.modelId, r.models[d.modelId], d.providerId, d.upstreamModel)]
  }

  /** A model's own deployments. */
  function Own(r: Registry, records: seq<Record>, id: string): seq<Deployment>
    requires forall i :: 0 <= i < |records| ==> records[i].modelId in r.models
  {
    if records == [] then []
    else
      var n := |records| - 1;
      var d := records[n];
      Own(r, records[..n], id) +
      if d.modelId == id then [Deployment(id, r.models[id], d.providerId, d.upstreamModel)] else []
  }

  lemma {:induction false} GroupIsOwn(r: Registry, records: seq<Record>, id: string)
    requires Clean(r) && id in r.models
    requires forall i :: 0 <= i < |records| ==> records[i].modelId in r.models
    ensures Grouped(Listed(r, records), r.models[id]) == Own(r, records, id)
    decreases |records|
  {
    if records != [] {
      var n := |records| - 1;
      GroupIsOwn(r, records[..n], id);
      var all := Listed(r, records);
      assert all[..|all| - 1] == Listed(r, records[..n]);
    }
  }

  lemma {:induction false} GroupOfNobody(r: Registry, records: seq<Record>, name: string)
    requires !Taken(r, name)
    requires forall i :: 0 <= i < |records| ==> records[i].modelId in r.models
    ensures Grouped(Listed(r, records), name) == []
    decreases |records|
  {
    if records != [] {
      var n := |records| - 1;
      GroupOfNobody(r, records[..n], name);
      var all := Listed(r, records);
      assert all[..|all| - 1] == Listed(r, records[..n]);
      assert all[|all| - 1].modelName == r.models[records[n].modelId];
    }
  }

  /** What a reload makes of the tables. */
  ghost predicate IsReload(r: Registry, records: seq<Record>, snap: Snapshot)
    requires forall i :: 0 <= i < |records| ==> records[i].modelId in r.models
    requires Clean(r)
  {
    && (forall n :: n in snap.models <==> Grouped(Listed(r, records), n) != [])
    && (forall n :: n in snap.models ==> snap.models[n] == Grouped(Listed(r, records), n))
    && snap.aliases.Keys == r.aliases.Keys
    && (forall n :: n in r.aliases ==> snap.aliases[n] == r.models[r.aliases[n]])
  }

  /**
   After a reload, a name settles on its model in at most one hop and is served by
   that model's own deployments; a name that belongs to no model is served by none.
   */
  lemma NamesServeTheirModel(r: Registry, records: seq<Record>, snap: Snapshot, name: string)
    requires forall i :: 0 <= i < |records| ==> records[i].modelId in r.models
    requires Clean(r) && IsReload(r, records, snap)
    ensures forall id :: Belongs(r, name, id) ==>
              && Follow(snap, name, 8) == Follow(snap, name, 1) == r.models[id]
              && Deployments(snap, Follow(snap, name, 8)) == Own(r, records, id)
    ensures !(exists id :: Belongs(r, name, id)) ==> Deployments(snap, Follow(snap, name, 8)) == []
  {
    forall id | Belongs(r, name, id)
      ensures Follow(snap, name, 8) == Follow(snap, name, 1) == r.models[id]
      ensures Deployments(snap, Follow(snap, name, 8)) == Own(r, records, id)
    {
      var own := r.models[id];
      GroupIsOwn(r, records, id);
      assert own !in snap.aliases;
      assert Follow(snap, own, 7) == own && Follow(snap, own, 0) == own;
      if name != own {
        assert !Taken(r, name);
        GroupOfNobody(r, records, name);
      }
    }
    if !(exists id :: Belongs(r, name, id)) {
      if id :| id in r.models && r.models[id] == name {
        assert Belongs(r, name, id);
      }
      assert name !in r.aliases by {
        if name in r.aliases { assert Belongs(r, name, r.aliases[name]); }
      }
      GroupOfNobody(r, records, name);
    }
  }

  // ---------------------------------------------------------------------
  // The store
  // ---------------------------------------------------------------------

  class Store {
    var models: map<string, string>
    var aliases: map<string, string>

    ghost function View(): Registry
      reads this
    {
      Registry(models, aliases)
    }

    constructor ()
      ensures View() == EMPTY_REGISTRY && Clean(View())
    {
      models, aliases := map[], map[];
    }

    method EnsureModel(name: string, newId: string) returns (r: Result)
      requires Clean(View()) && Fresh(View(), Step.EnsureModel(name, newId))
      modifies this
      ensures (View(), r) == Next(old(View()), Step.EnsureModel(name, newId)) && Clean(View())
    {
      StepKeepsClean(View(), Step.EnsureModel(name, newId));
      if name in aliases { return Conflict; }
      if id :| id in models && models[id] == name { return Ok; }
      models := models[newId := name];
      r := Ok;
    }

    method RenameModel(id: string, newName: string) returns (r: Result)
      requires Clean(View())
      modifies this
      ensures (View(), r) == Next(old(View()), Rename(id, newName)) && Clean(View())
    {
      StepKeepsClean(View(), Rename(id, newName));
      if id !in models { return NotFound; }
      var current := models[id];
      if current == newName { return Ok; }
      if other :| other in models && other != id && models[other] == newName { return Conflict; }
      if newName in aliases {
        if aliases[newName] != id { return Conflict; }
        aliases := aliases - {newName};
      }
      assert aliases == old(aliases) - {newName};
      models := models[id := newName];
      aliases := aliases[current := id];
      r := Ok;
    }

    method CreateAlias(alias: string, target: string) returns (r: Result)
      requires Clean(View())
      modifies this
      ensures (View(), r) == Next(old(View()), Step.CreateAlias(alias, target)) && Clean(View())
    {
      hide PublicName;
      StepKeepsClean(View(), Step.CreateAlias(alias, target));
      if alias == "" || target == "" || alias == target { return BadRequest; }
      var name := PublicName(alias);
      if name == None { return BadRequest; }
      if id :| id in models && models[id] == target {
        if other :| other in models && models[other] == name.value { return Conflict; }
        aliases := aliases[name.value := id];
        r := Ok;
      } else {
        r := NotFound;
      }
    }

    method DeleteAlias(alias: string)
      requires Clean(View())
      modifies this
      ensures View() == Next(old(View()), Step.DeleteAlias(alias)).0 && Clean(View())
    {
      aliases := aliases - {alias};
    }

    /** The routing table the current rows give. */
    method Reload(records: seq<Record>, fallbacks: map<string, seq<string>>) returns (snap: Snapshot)
      requires Clean(View())
      requires forall i :: 0 <= i < |records| ==> records[i].modelId in models
      ensures IsReload(View(), records, snap) && snap.fallbacks == fallbacks
    {
      var byName := BuildModels(Listed(Registry(models, aliases), records));
      snap := Snapshot(byName, fallbacks, map n | n in aliases :: models[aliases[n]]);
    }
  }
}
