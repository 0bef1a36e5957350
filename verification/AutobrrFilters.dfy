/**
 * One autobrr filter and its actions: what is declared, when it counts as done, and the guard that keeps a filter
 * disabled while its policy and actions change.
 */
module AutobrrFilters {
  import opened AutobrrMatch
  import opened AutobrrServer
  import opened JsonValues
  import opened Objects

  /** An action without its client, and the client's name; the empty name stands for no client. */
  datatype ActionDecl = ActionDecl(name: string, values: Object, client: string)

  datatype FilterDecl = FilterDecl(name: string, values: Object, indexers: seq<string>, actions: seq<ActionDecl>)

  predicate ValidAction(a: ActionDecl) {
    "type" in a.values && a.values["type"].Str? && a.values.Keys !! {"id", "name", "filter_id", "client_id"}
  }

  /** What validation demands of a filter. */
  predicate ValidFilter(d: FilterDecl) {
    && "enabled" in d.values && d.values["enabled"].Bool?
    && d.values.Keys !! {"id", "name", "indexers", "actions"}
    && (forall k | 0 <= k < |d.actions| :: ValidAction(d.actions[k]))
    && (forall j, k | 0 <= j < k < |d.actions| :: d.actions[j].name != d.actions[k].name)
  }

  // ---------------------------------------------------------------- indexers

  /** The ids that a filter lists; null when an entry has no usable id. */
  predicate GoodIndexers(f: Object) {
    Get(f, "indexers").Arr? ==>
      forall i | 0 <= i < |f["indexers"].items| ::
          f["indexers"].items[i].Obj? && Get(f["indexers"].items[i].fields, "id").Num?
  }

  function IndexerIds(f: Object): set<int>
    requires GoodIndexers(f)
  {
    if Get(f, "indexers").Arr? then
      set i | 0 <= i < |f["indexers"].items| :: Get(f["indexers"].items[i].fields, "id").n
    else {}
  }

  predicate IndexerFound(indexers: seq<Object>, name: string) {
    var found := Search(indexers, ByName(name));
    found.One? && Id(indexers[found.index]).Num?
  }

  function IndexerId(indexers: seq<Object>, name: string): int {
    var found := Search(indexers, ByName(name));
    if found.One? && Id(indexers[found.index]).Num? then Id(indexers[found.index]).n else 0
  }

  function Selected(indexers: seq<Object>, names: seq<string>): set<int> {
    set i | 0 <= i < |names| :: IndexerId(indexers, names[i])
  }

  /** Looks the declared indexers up; one that is missing, ambiguous or without an id raises. */
  method SelectIndexers(indexers: seq<Object>, names: seq<string>) returns (ok: bool, selected: set<int>)
    ensures ok <==> forall i | 0 <= i < |names| :: IndexerFound(indexers, names[i])
    ensures ok ==> selected == Selected(indexers, names)
  {
    selected := {};
    for n := 0 to |names|
      invariant forall i | 0 <= i < n :: IndexerFound(indexers, names[i])
      invariant selected == set i | 0 <= i < n :: IndexerId(indexers, names[i])
    {
      if !IndexerFound(indexers, names[n]) {
        return false, selected;
      }
      selected := selected + {IndexerId(indexers, names[n])};
    }
    ok := true;
  }

  function Entries(ids: seq<int>): Json {
    Arr(seq(|ids|, i requires 0 <= i < |ids| => Obj(map["id" := Num(ids[i])])))
  }

  lemma EmptyOrNot(ids: set<int>)
    ensures (forall id :: id !in ids) ==> ids == {}
  {
    if forall id :: id !in ids {
      assert ids == {};
    }
  }

  lemma {:induction false} LeastExists(ids: set<int>) returns (least: int)
    requires ids != {}
    ensures least in ids && forall id | id in ids :: least <= id
  {
    EmptyOrNot(ids);
    var one :| one in ids;
    var rest := ids - {one};
    assert forall id | id in ids :: id == one || id in rest;
    least := one;
    if rest != {} {
      var other := LeastExists(rest);
      least := if one < other then one else other;
    }
  }

  /** The ids in ascending order, each once. */
  method Sorted(ids: set<int>) returns (sorted: seq<int>)
    ensures forall id :: id in sorted <==> id in ids
    ensures forall i, j | 0 <= i < j < |sorted| :: sorted[i] < sorted[j]
  {
    sorted := [];
    var rest := ids;
    while rest != {}
      invariant rest <= ids
      invariant forall id :: id in sorted <==> id in ids - rest
      invariant forall i, j | 0 <= i < j < |sorted| :: sorted[i] < sorted[j]
      invariant forall i, id | 0 <= i < |sorted| && id in rest :: sorted[i] < id
    {
      ghost var smallest := LeastExists(rest);
      var least :| least in rest && forall id | id in rest :: least <= id;
      sorted := sorted + [least];
      rest := rest - {least};
    }
  }

  lemma EntriesMean(f: Object, ids: seq<int>)
    requires Get(f, "indexers") == Entries(ids)
    ensures GoodIndexers(f) && forall id :: id in IndexerIds(f) <==> id in ids
  {
    var items := f["indexers"].items;
    assert forall i | 0 <= i < |ids| :: items[i] == Obj(map["id" := Num(ids[i])]);
    forall id | id in ids
      ensures id in IndexerIds(f)
    {
      var i :| 0 <= i < |ids| && ids[i] == id;
      assert Get(items[i].fields, "id").n == id;
    }
  }

  // ---------------------------------------------------------------- actions

  /** Names are scoped by the filter. */
  function Scoped(name: string, id: Json): Object {
    map["name" := Str(name), "filter_id" := id]
  }

  predicate ClientFound(clients: seq<Object>, a: ActionDecl)
    requires ValidAction(a)
  {
    a.client != "" ==>
      var found := Search(clients, ByName(a.client));
      found.One? && Get(clients[found.index], "type") == a.values["type"]
  }

  function ClientId(clients: seq<Object>, name: string): Json {
    var found := Search(clients, ByName(name));
    if found.One? then Id(clients[found.index]) else Null
  }

  /** The full declaration of an action on a given filter. */
  function Declared(clients: seq<Object>, id: Json, a: ActionDecl): Object {
    var scoped := a.values["name" := Str(a.name)]["filter_id" := id];
    if a.client != "" then scoped["client_id" := ClientId(clients, a.client)] else scoped
  }

  /** The object is as declared: by the adapter's own test, or by holding every declared value. */
  predicate Meets(hash: Hash, o: Object, values: Object) {
    Matches(hash, map[], o, values, "") || Holds(o, values)
  }

  lemma PlainMeets(hash: Hash, o: Object, values: Object)
    requires Plain(values) && Meets(hash, o, values)
    ensures Matches(hash, map[], o, values, "")
  {
    if Holds(o, values) {
      PlainMatch(hash, o, values, "");
    }
  }

  /** No action of the name exists in the filter's list, or one that the declaration can be merged into. */
  predicate ActionReady(own: seq<Object>, id: Json, a: ActionDecl)
    requires ValidAction(a)
  {
    var found := Search(own, Scoped(a.name, id));
    && !found.Many?
    && (found.One? ==> Get(own[found.index], "type") == a.values["type"] && Compatible(own[found.index], a.values))
  }

  /** Exactly one action of the name exists in the filter's list, and it is as declared. */
  predicate ActionMet(hash: Hash, clients: seq<Object>, own: seq<Object>, id: Json, a: ActionDecl) {
    var found := Search(own, Scoped(a.name, id));
    found.One? && Meets(hash, own[found.index], Declared(clients, id, a))
  }

  lemma DeclaredLabels(clients: seq<Object>, id: Json, a: ActionDecl)
    requires ValidAction(a)
    ensures
      var declared := Declared(clients, id, a);
      && "id" !in declared && Get(declared, "name") == Str(a.name) && Get(declared, "filter_id") == id
      && Get(declared, "type") == a.values["type"]
      && (forall key | key in a.values :: key in declared && declared[key] == a.values[key])
  {
    assert "id" !in a.values && "name" !in a.values && "filter_id" !in a.values && "client_id" !in a.values;
  }

  /** The labels of a declared action are no objects, so only its values have to be compatible. */
  lemma DeclaredCompatible(clients: seq<Object>, id: Json, a: ActionDecl, o: Object)
    requires ValidAction(a) && !id.Obj? && (a.client != "" ==> !ClientId(clients, a.client).Obj?)
    ensures Compatible(o, a.values) <==> Compatible(o, Declared(clients, id, a))
  {
    var declared := Declared(clients, id, a);
    DeclaredLabels(clients, id, a);
    if Compatible(o, a.values) {
      forall key | key in declared && declared[key].Obj?
        ensures CompatibleAt(o, key, declared[key])
      {
        assert key in a.values && a.values[key].Obj?;
      }
    }
    if Compatible(o, declared) {
      forall key | key in a.values && a.values[key].Obj?
        ensures CompatibleAt(o, key, a.values[key])
      {
        assert declared[key] == a.values[key];
      }
    }
  }

  /** One planned write: what is merged into, if anything, and the declaration. */
  datatype Change = Create(declared: Object) | Update(existing: Object, declared: Object)

  function ChangeFor(clients: seq<Object>, own: seq<Object>, id: Json, a: ActionDecl): Change {
    var found := Search(own, Scoped(a.name, id));
    if found.One? then Update(own[found.index], Declared(clients, id, a)) else Create(Declared(clients, id, a))
  }

  predicate ValidActions(actions: seq<ActionDecl>) {
    && (forall k | 0 <= k < |actions| :: ValidAction(actions[k]))
    && (forall j, k | 0 <= j < k < |actions| :: actions[j].name != actions[k].name)
  }

  predicate ActionMatched(hash: Hash, clients: seq<Object>, own: seq<Object>, id: Json, a: ActionDecl) {
    var found := Search(own, Scoped(a.name, id));
    found.One? && Matches(hash, map[], own[found.index], Declared(clients, id, a), "")
  }

  /** No two actions of the name exist, and an existing one has the declared type. */
  predicate ActionSafe(own: seq<Object>, id: Json, a: ActionDecl)
    requires ValidAction(a)
  {
    var found := Search(own, Scoped(a.name, id));
    !found.Many? && (found.One? ==> Get(own[found.index], "type") == a.values["type"])
  }

  /** The planned changes are those of the listed actions, in order; the other actions match already. */
  ghost predicate Plan(hash: Hash, clients: seq<Object>, own: seq<Object>, id: Json, actions: seq<ActionDecl>, n: nat,
        planned: seq<Change>, at: seq<nat>)
    requires ValidActions(actions) && n <= |actions|
  {
    && |at| == |planned| && (forall p, q | 0 <= p < q < |at| :: at[p] < at[q])
    && (forall p | 0 <= p < |at| :: at[p] < n && PlannedAt(clients, own, id, actions[at[p]], planned[p]))
    && (forall p | 0 <= p < |at| :: !ActionMatched(hash, clients, own, id, actions[at[p]]))
    && (forall k: nat | k < n && k !in at :: ActionMatched(hash, clients, own, id, actions[k]))
  }

  predicate PlannedAt(clients: seq<Object>, own: seq<Object>, id: Json, a: ActionDecl, change: Change)
    requires ValidAction(a)
  {
    change == ChangeFor(clients, own, id, a) && ActionSafe(own, id, a)
  }

  lemma PlanStep(hash: Hash, clients: seq<Object>, own: seq<Object>, id: Json, actions: seq<ActionDecl>, n: nat,
        planned: seq<Change>, at: seq<nat>, change: Change)
    requires ValidActions(actions) && n < |actions| && Plan(hash, clients, own, id, actions, n, planned, at)
    requires PlannedAt(clients, own, id, actions[n], change) && !ActionMatched(hash, clients, own, id, actions[n])
    ensures Plan(hash, clients, own, id, actions, n + 1, planned + [change], at + [n])
  {
    var longer := at + [n];
    forall p | 0 <= p < |longer|
      ensures longer[p] < n + 1 && PlannedAt(clients, own, id, actions[longer[p]], (planned + [change])[p])
      ensures !ActionMatched(hash, clients, own, id, actions[longer[p]])
    {
      if p < |at| {
        assert longer[p] == at[p] && (planned + [change])[p] == planned[p];
      }
    }
    forall k: nat | k < n + 1 && k !in longer
      ensures ActionMatched(hash, clients, own, id, actions[k])
    {
      assert longer[|at|] == n;
      assert k !in at;
    }
  }

  lemma PlanSkip(hash: Hash, clients: seq<Object>, own: seq<Object>, id: Json, actions: seq<ActionDecl>, n: nat,
        planned: seq<Change>, at: seq<nat>)
    requires ValidActions(actions) && n < |actions| && Plan(hash, clients, own, id, actions, n, planned, at)
    requires ActionMatched(hash, clients, own, id, actions[n])
    ensures Plan(hash, clients, own, id, actions, n + 1, planned, at)
  {
  }

  /** An action that can be planned for: it is safe, and what exists of it can be compared. */
  predicate ActionComparable(clients: seq<Object>, own: seq<Object>, id: Json, a: ActionDecl)
    requires ValidAction(a)
  {
    var found := Search(own, Scoped(a.name, id));
    ActionSafe(own, id, a) && (found.One? ==> !Clashes(own[found.index], Declared(clients, id, a)))
  }

  lemma ReadyIsComparable(clients: seq<Object>, own: seq<Object>, id: Json, a: ActionDecl)
    requires ValidAction(a) && ActionReady(own, id, a) && !id.Obj?
    requires a.client != "" ==> !ClientId(clients, a.client).Obj?
    ensures ActionComparable(clients, own, id, a)
  {
    var found := Search(own, Scoped(a.name, id));
    if found.One? {
      DeclaredCompatible(clients, id, a, own[found.index]);
      CompatibleIsComparable(own[found.index], Declared(clients, id, a));
    }
  }

  /** Whether the action exists and matches; raises where it cannot be compared. */
  method CompareAction(hash: Hash, clients: seq<Object>, own: seq<Object>, id: Json, a: ActionDecl)
    returns (matched: Result<bool>)
    requires ValidAction(a)
    ensures matched == Ok(true) <==> ActionMatched(hash, clients, own, id, a)
    ensures ActionComparable(clients, own, id, a) ==> matched.Ok?
  {
    var found := Search(own, Scoped(a.name, id));
    if !found.One? {
      return Ok(false);
    }
    matched := MatchByKey(hash, map[], own[found.index], Declared(clients, id, a), "");
  }

  /** Compares the declared actions with the existing ones before anything is written. */
  method PlanActions(hash: Hash, clients: seq<Object>, own: seq<Object>, id: Json, actions: seq<ActionDecl>)
    returns (ok: bool, planned: seq<Change>, ghost at: seq<nat>)
    requires ValidActions(actions)
    ensures ok ==> Plan(hash, clients, own, id, actions, |actions|, planned, at)
    ensures ok ==> forall k | 0 <= k < |actions| :: ActionSafe(own, id, actions[k])
    ensures (forall k | 0 <= k < |actions| :: ActionComparable(clients, own, id, actions[k])) ==> ok
  {
    planned, at := [], [];
    for k := 0 to |actions|
      invariant Plan(hash, clients, own, id, actions, k, planned, at)
      invariant forall j | 0 <= j < k :: ActionSafe(own, id, actions[j])
    {
      if !ActionSafe(own, id, actions[k]) {
        return false, planned, at;
      }
      var matched := CompareAction(hash, clients, own, id, actions[k]);
      if matched.Err? {
        return false, planned, at;
      }
      if matched.value {
        PlanSkip(hash, clients, own, id, actions, k, planned, at);
      } else {
        var change := ChangeFor(clients, own, id, actions[k]);
        PlanStep(hash, clients, own, id, actions, k, planned, at, change);
        planned := planned + [change];
        at := at + [k];
      }
    }
    ok := true;
  }

  /** One action of the name was replaced or added in a filter's list. */
  ghost predicate ActionTouched(before: seq<Object>, after: seq<Object>, id: Json, name: string, at: nat) {
    after == before ||
    ((Replaced(before, after, at) || (Appended(before, after) && at == |before|)) &&
     Satisfies(after[at], Scoped(name, id)) && (at < |before| ==> Satisfies(before[at], Scoped(name, id))))
  }

  lemma OtherName(before: seq<Object>, after: seq<Object>, id: Json, name: string, at: nat, other: string)
    requires ActionTouched(before, after, id, name, at) && other != name
    ensures SameSearch(before, after, Scoped(other, id))
  {
    assert "name" in Scoped(other, id) && "name" in Scoped(name, id);
    if after != before {
      SearchUndisturbed(before, after, at, Scoped(other, id));
    }
  }

  /** Only the actions of one filter changed. */
  ghost predicate ActionsWritten(before: World, after: World, id: Json) {
    && after == before.(actions := after.actions, nextId := after.nextId) && before.nextId <= after.nextId
    && forall other | other != id :: ActionsOf(after.actions, other) == ActionsOf(before.actions, other)
  }

  lemma ScopedMeans(o: Object, name: string, id: Json)
    ensures Satisfies(o, Scoped(name, id)) <==> Name(o) == Str(name) && Get(o, "filter_id") == id
  {
    assert "name" in Scoped(name, id) && "filter_id" in Scoped(name, id);
  }

  /** What holds an action's declaration meets it and can be merged into again. */
  lemma HeldAction(clients: seq<Object>, id: Json, a: ActionDecl, o: Object)
    requires ValidAction(a) && id.Num? && Holds(o, Declared(clients, id, a))
    ensures Name(o) == Str(a.name) && Get(o, "filter_id") == id && Get(o, "type") == a.values["type"]
    ensures Compatible(o, a.values) && Satisfies(o, Scoped(a.name, id))
  {
    DeclaredLabels(clients, id, a);
    var declared := Declared(clients, id, a);
    assert HoldsAt(o["name"], declared["name"]) && HoldsAt(o["type"], declared["type"]);
    forall key | key in a.values
      ensures key in o && HoldsAt(o[key], a.values[key])
    {
      assert HoldsAt(o[key], declared[key]);
    }
    HoldsCompatible(o, a.values);
    ScopedMeans(o, a.name, id);
  }

  /** A stored declaration is found by its name and is as declared. */
  lemma ActionStored(hash: Hash, own: seq<Object>, after: seq<Object>, clients: seq<Object>, id: Json, a: ActionDecl,
        at: nat)
    requires ValidAction(a) && id.Num?
    requires
      || (Replaced(own, after, at) && Search(own, Scoped(a.name, id)) == One(at))
      || (Appended(own, after) && at == |own| && Search(own, Scoped(a.name, id)).Nothing?)
    requires Holds(after[at], Declared(clients, id, a))
    ensures ActionTouched(own, after, id, a.name, at)
    ensures ActionMet(hash, clients, after, id, a) && ActionReady(after, id, a)
  {
    HeldAction(clients, id, a, after[at]);
    SearchMeans(own, Scoped(a.name, id));
    SearchFinds(own, after, at, Scoped(a.name, id));
  }

  lemma ActionReplaced(before: World, after: World, id: Json, i: nat, at: nat, body: Object, pattern: Object)
    requires Sound(before) && id.Num? && id.n < before.nextId && i < |before.actions|
    requires Search(ActionsOf(before.actions, id), pattern) == One(at)
    requires ActionsOf(before.actions, id)[at] == before.actions[i]
    requires Id(body) == Id(before.actions[i]) && Get(body, "filter_id") == id && Name(body).Str?
    requires after == Replace(before, Actions, i, body)
    ensures Sound(after) && ActionsWritten(before, after, id)
    ensures ActionsOf(after.actions, id) == ActionsOf(before.actions, id)[at := body]
  {
    var own := ActionsOf(before.actions, id);
    SearchMeans(own, pattern);
    var k := ActionsPut(before.actions, i, body, id);
    assert k == at;
  }

  lemma ActionCreated(before: World, after: World, id: Json, body: Object)
    requires Sound(before) && id.Num? && id.n < before.nextId && Get(body, "filter_id") == id && Name(body).Str?
    requires after == Posted(before, Actions, body)
    ensures Sound(after) && ActionsWritten(before, after, id)
    ensures ActionsOf(after.actions, id) == ActionsOf(before.actions, id) + [body["id" := Num(before.nextId)]]
  {
    ActionsPost(before.actions, body["id" := Num(before.nextId)], id);
  }

  /** An undeclared key does not matter to a declaration. */
  lemma StillHolds(o: Object, values: Object, key: string, value: Json)
    requires Holds(o, values) && key !in values
    ensures Holds(o[key := value], values)
  {
    forall k | k in values
      ensures k in o[key := value] && HoldsAt(o[key := value][k], values[k])
    {
      assert HoldsAt(o[k], values[k]);
    }
  }

  /** The name and the filter id are declared, too, but they are those that the action has. */
  lemma MergedKept(clients: seq<Object>, id: Json, a: ActionDecl, o: Object)
    requires ValidAction(a) && id.Num? && Compatible(o, Declared(clients, id, a))
    requires Name(o) == Str(a.name) && Get(o, "filter_id") == id
    ensures ActionKept(o, Merge(o, Declared(clients, id, a)), a)
  {
    var declared := Declared(clients, id, a);
    var merged := Merge(o, declared);
    MergedAction(clients, id, a, o);
    forall path | Spares(a, path)
      ensures At(Obj(merged), path) == At(Obj(o), path)
    {
      if path[0] == "name" || path[0] == "filter_id" {
        assert path[0] in o && path[0] in merged && merged[path[0]] == o[path[0]];
      } else {
        assert Undeclared(declared, path);
        MergeKeeps(o, declared, path);
      }
    }
  }

  lemma MergedAction(clients: seq<Object>, id: Json, a: ActionDecl, o: Object)
    requires ValidAction(a) && id.Num? && Compatible(o, Declared(clients, id, a))
    ensures
      var merged := Merge(o, Declared(clients, id, a));
      && Holds(merged, Declared(clients, id, a)) && Id(merged) == Id(o) && Name(merged) == Str(a.name)
      && Get(merged, "filter_id") == id
  {
    MergeHolds(o, Declared(clients, id, a));
    DeclaredLabels(clients, id, a);
    HeldAction(clients, id, a, Merge(o, Declared(clients, id, a)));
  }

  /** Nothing is declared for the action at, above or below the path. */
  predicate Spares(a: ActionDecl, path: seq<string>) {
    Undeclared(a.values, path) && (a.client != "" ==> path[0] != "client_id")
  }

  /** An action that is updated keeps its id and name, and at every depth what is not declared for it. */
  ghost predicate ActionKept(o: Object, p: Object, a: ActionDecl) {
    && Id(p) == Id(o) && Name(p) == Name(o)
    && forall path | Spares(a, path) :: At(Obj(p), path) == At(Obj(o), path)
  }

  /** The effect of writing one action, whatever became of the request. */
  ghost predicate ActionStep(hash: Hash, before: World, after: World, clients: seq<Object>, id: Json, a: ActionDecl,
        at: nat, ok: bool)
    requires ValidAction(a)
  {
    var own := ActionsOf(before.actions, id);
    var now := ActionsOf(after.actions, id);
    && Sound(after) && ActionsWritten(before, after, id) && ActionTouched(own, now, id, a.name, at)
    && (now == own || (ActionMet(hash, clients, now, id, a) && ActionReady(now, id, a)))
    && (at < |own| && at < |now| ==> ActionKept(own[at], now[at], a))
    && (ok ==> ActionMet(hash, clients, now, id, a))
  }

  lemma FoundAction(own: seq<Object>, name: string, id: Json, at: nat)
    requires Search(own, Scoped(name, id)) == One(at)
    ensures Name(own[at]) == Str(name) && Get(own[at], "filter_id") == id
  {
    SearchMeans(own, Scoped(name, id));
    ScopedMeans(own[at], name, id);
  }

  method UpdateAction(server: Server, existing: Object, declared: Object, ghost hash: Hash, ghost clients: seq<Object>,
        ghost id: Json, ghost a: ActionDecl, ghost at: nat)
    returns (ok: bool)
    requires ValidAction(a) && Sound(server.world) && id.Num? && id.n < server.world.nextId
    requires !ClientId(clients, a.client).Obj?
    requires Search(ActionsOf(server.world.actions, id), Scoped(a.name, id)) == One(at)
    requires existing == ActionsOf(server.world.actions, id)[at] && declared == Declared(clients, id, a)
    modifies server`world, server`writes
    ensures old(server.writes) <= server.writes
    ensures ActionStep(hash, old(server.world), server.world, clients, id, a, at, ok)
    ensures server.reliable && Compatible(existing, a.values) ==> ok
  {
    ghost var before := server.world;
    DeclaredCompatible(clients, id, a, existing);
    var body := MergeByKey(existing, declared);
    if body.Err? {
      return false;
    }
    ghost var i := ActionsFrom(before.actions, id, at);
    IdFinds(before.actions, before.nextId, i);
    MergedAction(clients, id, a, existing);
    FoundAction(ActionsOf(before.actions, id), a.name, id, at);
    MergedKept(clients, id, a, existing);
    var saved;
    ok, saved := server.Put(Actions, Id(existing), body.value);
    if ok || server.world != before {
      ActionReplaced(before, server.world, id, i, at, body.value, Scoped(a.name, id));
      ActionStored(hash, ActionsOf(before.actions, id), ActionsOf(server.world.actions, id), clients, id, a, at);
    }
  }

  method CreateAction(server: Server, declared: Object, ghost hash: Hash, ghost clients: seq<Object>, ghost id: Json,
        ghost a: ActionDecl)
    returns (ok: bool)
    requires declared == Declared(clients, id, a)
    requires ValidAction(a) && Sound(server.world) && id.Num? && id.n < server.world.nextId
    requires !ClientId(clients, a.client).Obj?
    requires Search(ActionsOf(server.world.actions, id), Scoped(a.name, id)).Nothing?
    modifies server`world, server`writes
    ensures old(server.writes) <= server.writes
    ensures ActionStep(hash, old(server.world), server.world, clients, id, a,
        |ActionsOf(old(server.world).actions, id)|, ok)
    ensures server.reliable ==> ok
  {
    ghost var before := server.world;
    DeclaredCompatible(clients, id, a, map[]);
    MergedAction(clients, id, a, map[]);
    var body := MergeByKey(map[], declared);
    StillHolds(body.value, declared, "id", Num(before.nextId));
    var saved;
    ok, saved := server.Post(Actions, body.value);
    if ok || server.world != before {
      ActionCreated(before, server.world, id, body.value);
      ActionStored(hash, ActionsOf(before.actions, id), ActionsOf(server.world.actions, id), clients, id, a,
          |ActionsOf(before.actions, id)|);
    }
  }

  /** Writing one planned action. */
  method WriteAction(server: Server, change: Change, ghost hash: Hash, ghost clients: seq<Object>, ghost id: Json,
        ghost a: ActionDecl)
    returns (ok: bool, ghost at: nat)
    requires ValidAction(a) && Sound(server.world) && id.Num? && id.n < server.world.nextId
    requires !ClientId(clients, a.client).Obj?
    requires change == ChangeFor(clients, ActionsOf(server.world.actions, id), id, a)
    requires !Search(ActionsOf(server.world.actions, id), Scoped(a.name, id)).Many?
    modifies server`world, server`writes
    ensures old(server.writes) <= server.writes
    ensures ActionStep(hash, old(server.world), server.world, clients, id, a, at, ok)
    ensures server.reliable && ActionReady(ActionsOf(old(server.world).actions, id), id, a) ==> ok
  {
    if change.Update? {
      at := Search(ActionsOf(server.world.actions, id), Scoped(a.name, id)).index;
      ok := UpdateAction(server, change.existing, change.declared, hash, clients, id, a, at);
    } else {
      at := |ActionsOf(server.world.actions, id)|;
      ok := CreateAction(server, change.declared, hash, clients, id, a);
    }
  }

  // ---------------------------------------------------------------- all planned actions

  predicate ActionsReady(own: seq<Object>, id: Json, actions: seq<ActionDecl>)
    requires ValidActions(actions)
  {
    forall k | 0 <= k < |actions| :: ActionReady(own, id, actions[k])
  }

  predicate ActionsMet(hash: Hash, clients: seq<Object>, own: seq<Object>, id: Json, actions: seq<ActionDecl>) {
    forall k | 0 <= k < |actions| :: ActionMet(hash, clients, own, id, actions[k])
  }

  function ActionNames(actions: seq<ActionDecl>): set<string> {
    set k | 0 <= k < |actions| :: actions[k].name
  }

  /** An action keeps its name, and what is not declared for it. */
  ghost predicate OwnKept(o: Object, p: Object, actions: seq<ActionDecl>) {
    && Name(p) == Name(o)
    && forall k | 0 <= k < |actions| && Name(o) == Str(actions[k].name) :: ActionKept(o, p, actions[k])
  }

  /**
   * Actions keep their place, and declared ones what is not declared for them; those without a declared name are
   * identical, and new ones have a declared name.
   */
  ghost predicate OwnFrame(before: seq<Object>, after: seq<Object>, actions: seq<ActionDecl>) {
    && |before| <= |after|
    && (forall j | 0 <= j < |after| ::
        Named(after[j], ActionNames(actions)) || (j < |before| && after[j] == before[j]))
    && (forall j | 0 <= j < |before| :: OwnKept(before[j], after[j], actions))
  }

  /** The remaining changes are still those of their actions, and the other actions are as declared. */
  ghost predicate Remaining(hash: Hash, clients: seq<Object>, own: seq<Object>, id: Json, actions: seq<ActionDecl>,
        planned: seq<Change>, at: seq<nat>, n: nat)
    requires ValidActions(actions)
  {
    && |at| == |planned| && n <= |at| && (forall p, q | 0 <= p < q < |at| :: at[p] < at[q])
    && (forall p | n <= p < |at| :: at[p] < |actions| && PlannedAt(clients, own, id, actions[at[p]], planned[p]))
    && (forall k: nat | k < |actions| && k !in at[n..] :: ActionMet(hash, clients, own, id, actions[k]))
  }

  /** A write for one action leaves the plan of another, and whether it is as declared. */
  lemma OtherAction(hash: Hash, before: World, after: World, clients: seq<Object>, id: Json, a: ActionDecl,
        other: ActionDecl, touched: nat)
    requires ValidAction(a) && ValidAction(other) && a.name != other.name
    requires ActionStep(hash, before, after, clients, id, a, touched, true)
    ensures
      var own, now := ActionsOf(before.actions, id), ActionsOf(after.actions, id);
      && (forall change :: PlannedAt(clients, own, id, other, change) ==> PlannedAt(clients, now, id, other, change))
      && (ActionMet(hash, clients, own, id, other) ==> ActionMet(hash, clients, now, id, other))
  {
    OtherName(ActionsOf(before.actions, id), ActionsOf(after.actions, id), id, a.name, touched, other.name);
  }

  lemma RemainingStep(hash: Hash, before: World, after: World, clients: seq<Object>, id: Json, actions: seq<ActionDecl>,
        planned: seq<Change>, at: seq<nat>, n: nat, touched: nat)
    requires ValidActions(actions) && n < |planned|
    requires Remaining(hash, clients, ActionsOf(before.actions, id), id, actions, planned, at, n)
    requires ActionStep(hash, before, after, clients, id, actions[at[n]], touched, true)
    ensures Remaining(hash, clients, ActionsOf(after.actions, id), id, actions, planned, at, n + 1)
  {
    var own, now := ActionsOf(before.actions, id), ActionsOf(after.actions, id);
    forall p | n + 1 <= p < |at|
      ensures PlannedAt(clients, now, id, actions[at[p]], planned[p])
    {
      assert at[n] < at[p] < |actions| && PlannedAt(clients, own, id, actions[at[p]], planned[p]);
      OtherAction(hash, before, after, clients, id, actions[at[n]], actions[at[p]], touched);
    }
    forall k: nat | k < |actions| && k !in at[n + 1..]
      ensures ActionMet(hash, clients, now, id, actions[k])
    {
      NowOrLater(at, n, k);
      StillMet(hash, before, after, clients, id, actions, at[n], k, touched);
    }
  }

  lemma NowOrLater(at: seq<nat>, n: nat, k: nat)
    requires n < |at|
    ensures k in at[n..] <==> k == at[n] || k in at[n + 1..]
  {
    assert at[n..] == [at[n]] + at[n + 1..];
  }

  lemma StillMet(hash: Hash, before: World, after: World, clients: seq<Object>, id: Json, actions: seq<ActionDecl>,
        j: nat, k: nat, touched: nat)
    requires ValidActions(actions) && j < |actions| && k < |actions|
    requires ActionStep(hash, before, after, clients, id, actions[j], touched, true)
    requires k == j || ActionMet(hash, clients, ActionsOf(before.actions, id), id, actions[k])
    ensures ActionMet(hash, clients, ActionsOf(after.actions, id), id, actions[k])
  {
    if k != j {
      OtherAction(hash, before, after, clients, id, actions[j], actions[k], touched);
    }
  }

  lemma ReadyStep(hash: Hash, before: World, after: World, clients: seq<Object>, id: Json, actions: seq<ActionDecl>,
        k: nat, touched: nat, ok: bool)
    requires ValidActions(actions) && k < |actions|
    requires ActionStep(hash, before, after, clients, id, actions[k], touched, ok)
    requires ActionsReady(ActionsOf(before.actions, id), id, actions)
    ensures ActionsReady(ActionsOf(after.actions, id), id, actions)
  {
    var own, now := ActionsOf(before.actions, id), ActionsOf(after.actions, id);
    forall j | 0 <= j < |actions|
      ensures ActionReady(now, id, actions[j])
    {
      assert ActionReady(own, id, actions[j]);
      if j != k {
        OtherName(own, now, id, actions[k].name, touched, actions[j].name);
      }
    }
  }

  lemma OwnFrameStep(start: seq<Object>, before: seq<Object>, after: seq<Object>, id: Json, actions: seq<ActionDecl>,
        k: nat, at: nat)
    requires ValidActions(actions) && k < |actions| && OwnFrame(start, before, actions)
    requires ActionTouched(before, after, id, actions[k].name, at)
    requires at < |before| && at < |after| ==> ActionKept(before[at], after[at], actions[k])
    ensures OwnFrame(start, after, actions)
  {
    if after != before {
      ScopedMeans(after[at], actions[k].name, id);
      assert actions[k].name in ActionNames(actions);
    }
    forall j | 0 <= j < |after|
      ensures Named(after[j], ActionNames(actions)) || (j < |start| && after[j] == start[j])
    {
      assert j != at ==> after[j] == before[j];
    }
    forall j | 0 <= j < |start|
      ensures OwnKept(start[j], after[j], actions)
    {
      if j == at {
        KeptTwice(start[j], before[j], after[j], actions, k);
      }
    }
  }

  lemma KeptTwice(o: Object, p: Object, q: Object, actions: seq<ActionDecl>, k: nat)
    requires ValidActions(actions) && k < |actions| && OwnKept(o, p, actions) && ActionKept(p, q, actions[k])
    requires Name(p) == Str(actions[k].name) || q == p
    ensures OwnKept(o, q, actions)
  {
  }

  /** Writes the planned actions one after the other. */
  method WriteActions(server: Server, planned: seq<Change>, ghost hash: Hash, ghost clients: seq<Object>,
        ghost id: Json, ghost actions: seq<ActionDecl>, ghost at: seq<nat>)
    returns (ok: bool)
    requires ValidActions(actions) && Sound(server.world) && id.Num? && id.n < server.world.nextId
    requires forall k | 0 <= k < |actions| :: !ClientId(clients, actions[k].client).Obj?
    requires Remaining(hash, clients, ActionsOf(server.world.actions, id), id, actions, planned, at, 0)
    modifies server`world, server`writes
    ensures old(server.writes) <= server.writes
    ensures Sound(server.world) && ActionsWritten(old(server.world), server.world, id)
    ensures OwnFrame(ActionsOf(old(server.world).actions, id), ActionsOf(server.world.actions, id), actions)
    ensures ok ==> ActionsMet(hash, clients, ActionsOf(server.world.actions, id), id, actions)
    ensures ActionsReady(ActionsOf(old(server.world).actions, id), id, actions) ==>
        ActionsReady(ActionsOf(server.world.actions, id), id, actions) && (server.reliable ==> ok)
  {
    ok := true;
    for n := 0 to |planned|
      invariant ok && Sound(server.world) && ActionsWritten(old(server.world), server.world, id)
      invariant old(server.writes) <= server.writes
      invariant Remaining(hash, clients, ActionsOf(server.world.actions, id), id, actions, planned, at, n)
      invariant OwnFrame(ActionsOf(old(server.world).actions, id), ActionsOf(server.world.actions, id), actions)
      invariant ActionsReady(ActionsOf(old(server.world).actions, id), id, actions) ==>
          ActionsReady(ActionsOf(server.world.actions, id), id, actions)
    {
      ghost var before := server.world;
      assert PlannedAt(clients, ActionsOf(before.actions, id), id, actions[at[n]], planned[n]);
      ghost var touched;
      ok, touched := WriteAction(server, planned[n], hash, clients, id, actions[at[n]]);
      if ActionsReady(ActionsOf(before.actions, id), id, actions) {
        ReadyStep(hash, before, server.world, clients, id, actions, at[n], touched, ok);
      }
      OwnFrameStep(ActionsOf(old(server.world).actions, id), ActionsOf(before.actions, id),
          ActionsOf(server.world.actions, id), id, actions, at[n], touched);
      if !ok {
        return;
      }
      RemainingStep(hash, before, server.world, clients, id, actions, planned, at, n, touched);
    }
  }
}
