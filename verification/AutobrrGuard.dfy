/**
 * Reconciling one autobrr filter: an existing filter is compared first, and one that has to change stays disabled
 * from before its policy changes until all its declared actions are written.
 */
module AutobrrGuard {
  import opened AutobrrFilters
  import opened AutobrrMatch
  import opened AutobrrPaths
  import opened AutobrrServer
  import opened JsonValues
  import opened Objects

  function Policy(d: FilterDecl): Object {
    d.values - {"enabled"}
  }

  function EnabledOf(f: Object): Json {
    if "enabled" in f then f["enabled"] else Bool(false)
  }

  /** The indexers and action clients that a filter refers to exist. */
  predicate Provided(w: World, d: FilterDecl)
    requires ValidFilter(d)
  {
    && (forall i | 0 <= i < |d.indexers| :: IndexerFound(w.indexers, d.indexers[i]))
    && (forall k | 0 <= k < |d.actions| :: ClientFound(w.clients, d.actions[k]))
  }

  /** The filter does not exist, or there is one that the declaration can be applied to. */
  predicate FilterReady(w: World, d: FilterDecl)
    requires ValidFilter(d)
  {
    var found := Search(w.filters, ByName(d.name));
    && !found.Many?
    && (found.One? ==>
        var f := w.filters[found.index];
        && GoodIndexers(f) && !Clashes(f, Policy(d))
        && ActionsReady(ActionsOf(w.actions, Id(f)), Id(f), d.actions))
  }

  /** All declared policy, all selected indexers and all declared actions; what they refer to exists. */
  predicate Complete(hash: Hash, w: World, d: FilterDecl, f: Object)
    requires ValidFilter(d)
  {
    && Provided(w, d) && Meets(hash, f, Policy(d))
    && GoodIndexers(f) && Selected(w.indexers, d.indexers) <= IndexerIds(f)
    && ActionsMet(hash, w.clients, ActionsOf(w.actions, Id(f)), Id(f), d.actions)
  }

  /** There is exactly one filter of the name, complete and enabled as declared. */
  predicate FilterDone(hash: Hash, w: World, d: FilterDecl)
    requires ValidFilter(d)
  {
    var found := Search(w.filters, ByName(d.name));
    found.One? && Complete(hash, w, d, w.filters[found.index])
        && EnabledOf(w.filters[found.index]) == d.values["enabled"]
  }

  /** Undeclared keys are identical and no indexer is dropped. */
  ghost predicate FilterKept(f: Object, g: Object, d: FilterDecl) {
    && Id(g) == Id(f) && Name(g) == Name(f)
    && (forall key | key !in d.values && key != "enabled" && key != "indexers" :: Get(g, key) == Get(f, key))
    && (GoodIndexers(f) ==> GoodIndexers(g) && IndexerIds(f) <= IndexerIds(g))
  }

  /** The patch of an existing filter: the declared policy, and the indexers if some are missing. */
  ghost predicate IsPatch(w: World, f: Object, d: FilterDecl, policy: Object)
    requires ValidFilter(d) && GoodIndexers(f)
  {
    var selected := Selected(w.indexers, d.indexers);
    if selected <= IndexerIds(f) then policy == Policy(d)
    else exists ids: seq<int> ::
        policy == Policy(d)["indexers" := Entries(ids)] && (set id | id in ids) == IndexerIds(f) + selected
  }

  lemma PatchedFilter(w: World, f: Object, d: FilterDecl, policy: Object, enabled: bool, g: Object)
    requires ValidFilter(d) && GoodIndexers(f) && IsPatch(w, f, d, policy)
    requires g == f + policy["enabled" := Bool(enabled)]
    ensures Holds(g, Policy(d)) && FilterKept(f, g, d) && EnabledOf(g) == Bool(enabled)
    ensures GoodIndexers(g) && Selected(w.indexers, d.indexers) <= IndexerIds(g)
  {
    assert "id" !in d.values && "name" !in d.values && "indexers" !in d.values;
    HoldsItself(Policy(d));
    forall key | key in Policy(d)
      ensures key in g && HoldsAt(g[key], Policy(d)[key])
    {
      assert g[key] == Policy(d)[key];
    }
    if Selected(w.indexers, d.indexers) <= IndexerIds(f) {
      assert Get(g, "indexers") == Get(f, "indexers");
    } else {
      var ids: seq<int> :| policy == Policy(d)["indexers" := Entries(ids)]
          && (set id | id in ids) == IndexerIds(f) + Selected(w.indexers, d.indexers);
      EntriesMean(g, ids);
    }
  }

  /** The lists that a new filter has empty where nothing is declared for them. */
  ghost predicate StartsEmpty(f: Object, d: FilterDecl) {
    forall key | key !in d.values && key in {
        "resolutions", "codecs", "sources", "containers", "match_hdr", "except_hdr", "match_other", "except_other",
        "match_language", "except_language", "match_release_types", "formats", "quality", "media", "origins",
        "except_origins"
      } :: Get(f, key) == Arr([])
  }

  /** One filter and its actions changed, or one was added; nothing else did. */
  ghost predicate FilterTouched(before: World, after: World, d: FilterDecl, at: nat) {
    && after == before.(filters := after.filters, actions := after.actions, nextId := after.nextId)
    && before.nextId <= after.nextId
    && (Replaced(before.filters, after.filters, at)
        || (Appended(before.filters, after.filters) && at == |before.filters|))
    && Name(after.filters[at]) == Str(d.name)
    && (if at < |before.filters| then FilterKept(before.filters[at], after.filters[at], d)
        else StartsEmpty(after.filters[at], d))
    && OwnFrame(ActionsOf(before.actions, Id(after.filters[at])), ActionsOf(after.actions, Id(after.filters[at])),
        d.actions)
    && (forall id | id != Id(after.filters[at]) :: ActionsOf(after.actions, id) == ActionsOf(before.actions, id))
  }

  /** The filter is as it was, or it is disabled, or it is complete. */
  ghost predicate Guarded(hash: Hash, before: World, after: World, d: FilterDecl, at: nat)
    requires ValidFilter(d) && at < |after.filters|
  {
    || (at < |before.filters| && after.filters[at] == before.filters[at] &&
        ActionsOf(after.actions, Id(after.filters[at])) == ActionsOf(before.actions, Id(after.filters[at])))
    || EnabledOf(after.filters[at]) == Bool(false)
    || Complete(hash, after, d, after.filters[at])
  }

  /** What holds of one updated filter at every exit. */
  ghost predicate Updated(hash: Hash, before: World, after: World, d: FilterDecl, at: nat)
    requires ValidFilter(d) && at < |before.filters|
  {
    && Sound(after) && FilterTouched(before, after, d, at) && Guarded(hash, before, after, d, at)
    && GoodIndexers(after.filters[at])
    && (after.filters[at] == before.filters[at] || Holds(after.filters[at], Policy(d)))
  }

  /** A filter that was updated can be compared if it could be before. */
  lemma UpdatedComparable(hash: Hash, before: World, after: World, d: FilterDecl, at: nat)
    requires ValidFilter(d) && at < |before.filters| && Updated(hash, before, after, d, at)
    ensures !Clashes(before.filters[at], Policy(d)) ==> !Clashes(after.filters[at], Policy(d))
  {
    if Holds(after.filters[at], Policy(d)) {
      HoldsCompatible(after.filters[at], Policy(d));
      CompatibleIsComparable(after.filters[at], Policy(d));
    }
  }

  /** The filter is put in place while the actions may have changed: disabled, or complete. */
  lemma PatchStep(hash: Hash, before: World, after: World, d: FilterDecl, at: nat, policy: Object, enabled: bool)
    requires ValidFilter(d) && Sound(before) && at < |before.filters| && Name(before.filters[at]) == Str(d.name)
    requires GoodIndexers(before.filters[at]) && IsPatch(before, before.filters[at], d, policy)
    requires after.filters == before.filters[at := before.filters[at] + policy["enabled" := Bool(enabled)]]
    requires Sound(after.(filters := before.filters)) && Provided(before, d)
    requires ActionsWritten(before, after.(filters := before.filters), Id(before.filters[at]))
    requires OwnFrame(ActionsOf(before.actions, Id(before.filters[at])),
        ActionsOf(after.actions, Id(before.filters[at])), d.actions)
    requires enabled ==>
        ActionsMet(hash, before.clients, ActionsOf(after.actions, Id(before.filters[at])), Id(before.filters[at]),
        d.actions)
    ensures Updated(hash, before, after, d, at) && EnabledOf(after.filters[at]) == Bool(enabled)
    ensures ActionsMet(hash, before.clients, ActionsOf(after.actions, Id(before.filters[at])), Id(before.filters[at]),
        d.actions) ==>
        Complete(hash, after, d, after.filters[at])
  {
    PatchedFilter(before, before.filters[at], d, policy, enabled, after.filters[at]);
  }

  lemma OwnFrameSelf(own: seq<Object>, actions: seq<ActionDecl>)
    ensures OwnFrame(own, own, actions)
  {
  }

  lemma NothingDone(hash: Hash, before: World, d: FilterDecl, at: nat)
    requires ValidFilter(d) && Sound(before) && at < |before.filters| && Name(before.filters[at]) == Str(d.name)
    requires GoodIndexers(before.filters[at])
    ensures Updated(hash, before, before, d, at)
  {
  }

  lemma ReplacedSound(before: World, at: nat, g: Object, policy: Object, d: FilterDecl)
    requires ValidFilter(d) && Sound(before) && at < |before.filters| && GoodIndexers(before.filters[at])
    requires IsPatch(before, before.filters[at], d, policy)
    requires g == before.filters[at] + policy["enabled" := Bool(false)]
    ensures Sound(Replace(before, Filters, at, g)) && Id(g) == Id(before.filters[at])
  {
    PatchedFilter(before, before.filters[at], d, policy, false, g);
  }

  /** The actions were written while the patched filter was in place. */
  lemma ActionsUnder(before: World, disabled: World, acted: World, at: nat, g: Object)
    requires Sound(before) && at < |before.filters| && disabled == Replace(before, Filters, at, g)
    requires Sound(acted) && ActionsWritten(disabled, acted, Id(before.filters[at]))
    ensures Sound(acted.(filters := before.filters))
    ensures ActionsWritten(before, acted.(filters := before.filters), Id(before.filters[at]))
    ensures acted.filters == before.filters[at := g]
  {
  }

  /** The filter is disabled and patched, and the actions are being written. */
  ghost predicate Underway(before: World, w: World, d: FilterDecl, at: nat, policy: Object)
    requires ValidFilter(d) && at < |before.filters|
  {
    var id := Id(before.filters[at]);
    && Sound(before) && Provided(before, d) && Name(before.filters[at]) == Str(d.name)
    && GoodIndexers(before.filters[at]) && IsPatch(before, before.filters[at], d, policy)
    && w.filters == before.filters[at := before.filters[at] + policy["enabled" := Bool(false)]]
    && Sound(w) && Sound(w.(filters := before.filters)) && ActionsWritten(before, w.(filters := before.filters), id)
    && OwnFrame(ActionsOf(before.actions, id), ActionsOf(w.actions, id), d.actions)
  }

  lemma PatchedAgain(f: Object, policy: Object)
    ensures f + policy["enabled" := Bool(false)] + map["enabled" := Bool(true)] == f + policy["enabled" := Bool(true)]
  {
  }

  /** Whether or not the last patch took effect, the filter is guarded; if it did, the filter is complete. */
  lemma EnableEnds(hash: Hash, before: World, acted: World, after: World, d: FilterDecl, at: nat, policy: Object)
    requires ValidFilter(d) && at < |before.filters| && Underway(before, acted, d, at, policy)
    requires ActionsMet(hash, before.clients, ActionsOf(acted.actions, Id(before.filters[at])), Id(before.filters[at]),
        d.actions)
    requires after == acted || after == Replace(acted, Filters, at, acted.filters[at] + map["enabled" := Bool(true)])
    ensures Updated(hash, before, after, d, at)
    ensures after != acted || acted.filters[at] + map["enabled" := Bool(true)] == acted.filters[at] ==>
        Complete(hash, after, d, after.filters[at]) && EnabledOf(after.filters[at]) == Bool(true)
  {
    var patched := before.filters[at] + policy["enabled" := Bool(true)];
    PatchedAgain(before.filters[at], policy);
    if after == acted && patched != acted.filters[at] {
      PatchStep(hash, before, acted, d, at, policy, false);
    } else {
      assert after.filters == before.filters[at := patched];
      PatchStep(hash, before, after, d, at, policy, true);
    }
  }

  method EnableFilter(server: Server, id: Json, ghost hash: Hash, ghost before: World, ghost d: FilterDecl,
        ghost at: nat, ghost policy: Object)
    returns (ok: bool)
    requires ValidFilter(d) && at < |before.filters| && id == Id(before.filters[at])
    requires Underway(before, server.world, d, at, policy)
    requires ActionsMet(hash, before.clients, ActionsOf(server.world.actions, id), id, d.actions)
    modifies server`world, server`writes
    ensures old(server.writes) <= server.writes
    ensures Updated(hash, before, server.world, d, at) && server.world.actions == old(server.world.actions)
    ensures ok ==>
        Complete(hash, server.world, d, server.world.filters[at]) && EnabledOf(server.world.filters[at]) == Bool(true)
    ensures server.reliable ==> ok
  {
    ghost var acted := server.world;
    PatchedFilter(before, before.filters[at], d, policy, false, acted.filters[at]);
    IdFinds(acted.filters, acted.nextId, at);
    ok := server.Patch(id, map["enabled" := Bool(true)]);
    EnableEnds(hash, before, acted, server.world, d, at, policy);
  }

  /** The first patch disables the filter and sets its policy. */
  method DisableFilter(server: Server, id: Json, policy: Object, ghost hash: Hash, ghost d: FilterDecl, ghost at: nat)
    returns (ok: bool)
    requires ValidFilter(d) && Sound(server.world) && at < |server.world.filters|
    requires Name(server.world.filters[at]) == Str(d.name) && id == Id(server.world.filters[at])
    requires GoodIndexers(server.world.filters[at]) && IsPatch(server.world, server.world.filters[at], d, policy)
    requires Provided(server.world, d)
    modifies server`world, server`writes
    ensures old(server.writes) < server.writes && (server.reliable ==> ok)
    ensures !ok ==>
        Updated(hash, old(server.world), server.world, d, at) && server.world.actions == old(server.world).actions
    ensures ok ==>
        server.world == Replace(old(server.world), Filters, at,
          old(server.world).filters[at] + policy["enabled" := Bool(false)])
  {
    ghost var before := server.world;
    IdFinds(before.filters, before.nextId, at);
    ok := server.Patch(id, policy["enabled" := Bool(false)]);
    if !ok {
      OwnFrameSelf(ActionsOf(before.actions, id), d.actions);
      if server.world == before {
        NothingDone(hash, before, d, at);
      } else {
        PatchStep(hash, before, server.world, d, at, policy, false);
      }
    }
  }

  /** Disables and patches the filter, writes the planned actions, and enables it if that is declared. */
  method UpdateFilter(server: Server, id: Json, policy: Object, planned: seq<Change>, enabled: bool,
        ghost hash: Hash, ghost d: FilterDecl, ghost at: nat, ghost written: seq<nat>)
    returns (ok: bool)
    requires ValidFilter(d) && Sound(server.world) && at < |server.world.filters|
    requires Name(server.world.filters[at]) == Str(d.name) && id == Id(server.world.filters[at])
    requires GoodIndexers(server.world.filters[at]) && IsPatch(server.world, server.world.filters[at], d, policy)
    requires Provided(server.world, d)
    requires Remaining(hash, server.world.clients, ActionsOf(server.world.actions, id), id, d.actions, planned, written,
        0)
    modifies server`world, server`writes
    ensures old(server.writes) < server.writes
    ensures Updated(hash, old(server.world), server.world, d, at)
    ensures ok ==>
        Complete(hash, server.world, d, server.world.filters[at])
        && EnabledOf(server.world.filters[at]) == Bool(enabled)
    ensures ActionsReady(ActionsOf(old(server.world).actions, id), id, d.actions) ==>
        ActionsReady(ActionsOf(server.world.actions, id), id, d.actions) && (server.reliable ==> ok)
  {
    ghost var before := server.world;
    ghost var g := before.filters[at] + policy["enabled" := Bool(false)];
    ok := DisableFilter(server, id, policy, hash, d, at);
    if !ok {
      return;
    }
    ghost var disabled := server.world;
    ReplacedSound(before, at, g, policy, d);
    ok := WriteActions(server, planned, hash, before.clients, id, d.actions, written);
    ghost var acted := server.world;
    ActionsUnder(before, disabled, acted, at, g);
    if !ok || !enabled {
      PatchStep(hash, before, acted, d, at, policy, false);
      return;
    }
    ok := EnableFilter(server, id, hash, before, d, at, policy);
  }

  // ---------------------------------------------------------------- comparing before writing

  /** No nulls and no secrets are declared for a filter or its actions. */
  predicate PlainFilter(d: FilterDecl) {
    Plain(Policy(d)) && forall k | 0 <= k < |d.actions| :: Plain(d.actions[k].values)
  }

  lemma PlainDeclared(clients: seq<Object>, id: Json, a: ActionDecl)
    requires ValidAction(a) && Plain(a.values) && id.Num? && (a.client != "" ==> ClientId(clients, a.client).Num?)
    ensures Plain(Declared(clients, id, a))
  {
    assert |Lower("name")| == 4 && |Lower("filter_id")| == 9 && |Lower("client_id")| == 9;
    var declared := Declared(clients, id, a);
    forall key | key in declared
      ensures if declared[key].Obj? then Plain(declared[key].fields) else !declared[key].Null? && !SecretKey(key)
    {
      if key in a.values {
        DeclaredLabels(clients, id, a);
      }
    }
  }

  /** The adapter's listing of clients gives the same ids as the server's table. */
  ghost predicate SameClients(clients: seq<Object>, stored: seq<Object>, actions: seq<ActionDecl>) {
    forall k | 0 <= k < |actions| :: ClientId(clients, actions[k].client) == ClientId(stored, actions[k].client)
  }

  /** A plan made from the adapter's listing is what remains to be written on the server. */
  lemma PlanRemains(hash: Hash, clients: seq<Object>, stored: seq<Object>, own: seq<Object>, id: Json,
        actions: seq<ActionDecl>, planned: seq<Change>, at: seq<nat>)
    requires ValidActions(actions) && Plan(hash, clients, own, id, actions, |actions|, planned, at)
    requires SameClients(clients, stored, actions)
    ensures Remaining(hash, stored, own, id, actions, planned, at, 0)
    ensures planned == [] ==> ActionsMet(hash, stored, own, id, actions)
  {
    forall p | 0 <= p < |at|
      ensures at[p] < |actions| && PlannedAt(stored, own, id, actions[at[p]], planned[p])
    {
      assert at[p] < |actions| && PlannedAt(clients, own, id, actions[at[p]], planned[p]);
      assert Declared(clients, id, actions[at[p]]) == Declared(stored, id, actions[at[p]]);
    }
    assert at[0..] == at;
    forall k: nat | k < |actions| && k !in at
      ensures ActionMet(hash, stored, own, id, actions[k])
    {
      assert ActionMatched(hash, clients, own, id, actions[k]);
      assert Declared(clients, id, actions[k]) == Declared(stored, id, actions[k]);
    }
  }

  lemma FirstPlanned(hash: Hash, clients: seq<Object>, own: seq<Object>, id: Json, actions: seq<ActionDecl>,
        planned: seq<Change>, at: seq<nat>)
    requires ValidActions(actions) && Plan(hash, clients, own, id, actions, |actions|, planned, at)
    ensures planned != [] ==> exists k | 0 <= k < |actions| :: !ActionMatched(hash, clients, own, id, actions[k])
  {
    if planned != [] {
      assert !ActionMatched(hash, clients, own, id, actions[at[0]]);
    }
  }

  /** Nothing is planned for actions that are as declared. */
  lemma NothingPlanned(hash: Hash, clients: seq<Object>, stored: seq<Object>, own: seq<Object>, id: Json,
        actions: seq<ActionDecl>, planned: seq<Change>, at: seq<nat>)
    requires ValidActions(actions) && Plan(hash, clients, own, id, actions, |actions|, planned, at)
    requires SameClients(clients, stored, actions)
    requires ActionsMet(hash, stored, own, id, actions) && id.Num?
    requires forall k | 0 <= k < |actions| ::
        Plain(actions[k].values) && (actions[k].client != "" ==> ClientId(stored, actions[k].client).Num?)
    ensures planned == []
  {
    FirstPlanned(hash, clients, own, id, actions, planned, at);
    forall k | 0 <= k < |actions|
      ensures ActionMatched(hash, clients, own, id, actions[k])
    {
      assert ActionMet(hash, stored, own, id, actions[k]);
      PlainDeclared(stored, id, actions[k]);
      PlainMeets(hash, own[Search(own, Scoped(actions[k].name, id)).index], Declared(stored, id, actions[k]));
      assert Declared(clients, id, actions[k]) == Declared(stored, id, actions[k]);
    }
  }

  /** The declared policy, with the union of the indexers when a selected one is missing. */
  method PlanPolicy(d: FilterDecl, current: Object, selected: set<int>, ghost w: World) returns (policy: Object)
    requires ValidFilter(d) && GoodIndexers(current) && selected == Selected(w.indexers, d.indexers)
    ensures IsPatch(w, current, d, policy)
  {
    policy := Policy(d);
    var desired := IndexerIds(current) + selected;
    if desired != IndexerIds(current) {
      var ids := Sorted(desired);
      policy := policy["indexers" := Entries(ids)];
      assert "indexers" !in d.values;
    } else {
      assert selected <= IndexerIds(current);
    }
  }

  /** A filter that matches its patch has the declared policy and the selected indexers. */
  lemma MatchedPolicy(hash: Hash, w: World, d: FilterDecl, current: Object, policy: Object)
    requires ValidFilter(d) && GoodIndexers(current) && IsPatch(w, current, d, policy)
    requires Matches(hash, map[], current, policy, "")
    ensures Matches(hash, map[], current, Policy(d), "") && InPlace(current, Policy(d))
    ensures Selected(w.indexers, d.indexers) <= IndexerIds(current)
  {
    assert "indexers" !in Policy(d) && |Lower("indexers")| == 8 && Lower("indexers")[0] == 'i';
    forall key | key in Policy(d)
      ensures MatchesAt(hash, map[], Get(current, key), key, Policy(d)[key], "")
    {
      assert key in policy && policy[key] == Policy(d)[key];
    }
    MatchInPlace(hash, map[], current, Policy(d));
    var selected := Selected(w.indexers, d.indexers);
    if !(selected <= IndexerIds(current)) {
      var ids: seq<int> :| policy == Policy(d)["indexers" := Entries(ids)]
          && (set id | id in ids) == IndexerIds(current) + selected;
      assert MatchesAt(hash, map[], Get(current, "indexers"), "indexers", Entries(ids), "");
      if !Get(current, "indexers").Null? {
        EntriesMean(current, ids);
      }
    }
  }

  /** The patch can be compared with the filter if the declared policy can: its indexers are no object. */
  lemma PatchComparable(w: World, d: FilterDecl, current: Object, policy: Object)
    requires ValidFilter(d) && GoodIndexers(current) && IsPatch(w, current, d, policy)
    requires !Clashes(current, Policy(d))
    ensures !Clashes(current, policy)
  {
    forall key | key in policy && policy[key].Obj?
      ensures !ClashesAt(Get(current, key), policy[key])
    {
      assert key in Policy(d) && Policy(d)[key] == policy[key];
    }
  }

  /** Nulls are declared for the filter or one of its actions. */
  predicate NullFilter(d: FilterDecl) {
    HasNull(Policy(d)) || exists k | 0 <= k < |d.actions| :: HasNull(d.actions[k].values)
  }

  lemma NullPolicy(hash: Hash, w: World, d: FilterDecl, current: Object, policy: Object)
    requires ValidFilter(d) && GoodIndexers(current) && IsPatch(w, current, d, policy) && HasNull(Policy(d))
    ensures !Matches(hash, map[], current, policy, "")
  {
    var key :| key in Policy(d) && NullAt(key, Policy(d)[key]);
    assert key in policy && policy[key] == Policy(d)[key];
    NullNeverMatches(hash, map[], current, policy, "");
  }

  lemma NullAction(hash: Hash, clients: seq<Object>, own: seq<Object>, id: Json, a: ActionDecl)
    requires ValidAction(a) && HasNull(a.values)
    ensures !ActionMatched(hash, clients, own, id, a)
  {
    var found := Search(own, Scoped(a.name, id));
    if found.One? {
      var key :| key in a.values && NullAt(key, a.values[key]);
      DeclaredLabels(clients, id, a);
      NullNeverMatches(hash, map[], own[found.index], Declared(clients, id, a), "");
    }
  }

  /** With a null declared, either the policy differs or an action is planned. */
  lemma NullDiffers(hash: Hash, w: World, clients: seq<Object>, d: FilterDecl, current: Object, policy: Object,
        own: seq<Object>, planned: seq<Change>, at: seq<nat>)
    requires ValidFilter(d) && GoodIndexers(current) && IsPatch(w, current, d, policy) && NullFilter(d)
    requires Plan(hash, clients, own, Id(current), d.actions, |d.actions|, planned, at)
    ensures !Matches(hash, map[], current, policy, "") || planned != []
  {
    if HasNull(Policy(d)) {
      NullPolicy(hash, w, d, current, policy);
    } else {
      var k: nat :| k < |d.actions| && HasNull(d.actions[k].values);
      NullAction(hash, clients, own, Id(current), d.actions[k]);
      assert k in at;
    }
  }

  /** Whether a filter is to be left alone: it existed, and matches in policy, actions and enabling. */
  method Unchanged(hash: Hash, current: Object, policy: Object, planned: seq<Change>, created: bool, d: FilterDecl)
    returns (same: Result<bool>)
    requires ValidFilter(d)
    ensures same == Ok(true) <==>
        !created && Matches(hash, map[], current, policy, "") && planned == []
            && EnabledOf(current) == d.values["enabled"]
    ensures created || !Clashes(current, policy) ==> same.Ok?
  {
    if created {
      return Ok(false);
    }
    var matched := MatchByKey(hash, map[], current, policy, "");
    if matched != Ok(true) {
      return matched;
    }
    same := Ok(planned == [] && EnabledOf(current) == d.values["enabled"]);
  }

  /** Compares a filter with its declaration, and updates it if anything differs or it was just created. */
  method ApplyFilter(hash: Hash, server: Server, clients: seq<Object>, current: Object, own: seq<Object>,
        selected: set<int>, created: bool, d: FilterDecl, ghost at: nat)
    returns (ok: bool)
    requires ValidFilter(d) && Sound(server.world) && at < |server.world.filters| && server.world.filters[at] == current
    requires Name(current) == Str(d.name) && own == ActionsOf(server.world.actions, Id(current))
    requires Provided(server.world, d) && selected == Selected(server.world.indexers, d.indexers)
    requires SameClients(clients, server.world.clients, d.actions)
    requires forall k | 0 <= k < |d.actions| && d.actions[k].client != "" ::
        ClientId(server.world.clients, d.actions[k].client).Num?
    modifies server`world, server`writes
    ensures old(server.writes) <= server.writes
    ensures server.world == old(server.world) || Updated(hash, old(server.world), server.world, d, at)
    ensures ok ==>
        Complete(hash, server.world, d, server.world.filters[at])
        && EnabledOf(server.world.filters[at]) == d.values["enabled"]
    ensures ok && (created || NullFilter(d)) ==> old(server.writes) < server.writes
    ensures GoodIndexers(current) && ActionsReady(own, Id(current), d.actions) ==>
        ActionsReady(ActionsOf(server.world.actions, Id(current)), Id(current), d.actions)
        && (server.reliable && (created || !Clashes(current, Policy(d))) ==> ok)
    ensures
      && !created && PlainFilter(d) && Complete(hash, old(server.world), d, current)
      && EnabledOf(current) == d.values["enabled"]
      ==> server.world == old(server.world) && server.writes == old(server.writes)
  {
    if !GoodIndexers(current) {
      return false;
    }
    ghost var w := server.world;
    var policy := PlanPolicy(d, current, selected, w);
    var planned;
    ghost var written;
    ok, planned, written := PlanActions(hash, clients, own, Id(current), d.actions);
    ComparableActions(clients, w.clients, own, Id(current), d.actions);
    if !ok {
      return;
    }
    PlanRemains(hash, clients, w.clients, own, Id(current), d.actions, planned, written);
    ComparisonMeans(hash, w, clients, d, current, policy, own, planned, written);
    var same := Unchanged(hash, current, policy, planned, created, d);
    if same.Err? {
      return false;
    }
    if same.value {
      MatchedPolicy(hash, w, d, current, policy);
      return true;
    }
    ok := UpdateFilter(server, Id(current), policy, planned, d.values["enabled"].b, hash, d, at, written);
  }

  lemma ComparableActions(clients: seq<Object>, stored: seq<Object>, own: seq<Object>, id: Json,
        actions: seq<ActionDecl>)
    requires ValidActions(actions) && id.Num? && SameClients(clients, stored, actions)
    requires forall k | 0 <= k < |actions| && actions[k].client != "" :: ClientId(stored, actions[k].client).Num?
    ensures ActionsReady(own, id, actions) ==>
        forall k | 0 <= k < |actions| :: ActionComparable(clients, own, id, actions[k])
  {
    forall k | 0 <= k < |actions| && ActionReady(own, id, actions[k])
      ensures ActionComparable(clients, own, id, actions[k])
    {
      assert ClientId(clients, actions[k].client) == ClientId(stored, actions[k].client);
      ReadyIsComparable(clients, own, id, actions[k]);
    }
  }

  /** What the comparison of the plan with the filter can turn out to be. */
  lemma ComparisonMeans(hash: Hash, w: World, clients: seq<Object>, d: FilterDecl, current: Object, policy: Object,
        own: seq<Object>, planned: seq<Change>, at: seq<nat>)
    requires ValidFilter(d) && GoodIndexers(current) && IsPatch(w, current, d, policy) && Id(current).Num?
    requires own == ActionsOf(w.actions, Id(current)) && SameClients(clients, w.clients, d.actions)
    requires Plan(hash, clients, own, Id(current), d.actions, |d.actions|, planned, at)
    requires forall k | 0 <= k < |d.actions| && d.actions[k].client != "" ::
        ClientId(w.clients, d.actions[k].client).Num?
    ensures !Clashes(current, Policy(d)) ==> !Clashes(current, policy)
    ensures NullFilter(d) ==> !Matches(hash, map[], current, policy, "") || planned != []
    ensures PlainFilter(d) && Complete(hash, w, d, current) ==>
        Matches(hash, map[], current, policy, "") && planned == []
  {
    if !Clashes(current, Policy(d)) {
      PatchComparable(w, d, current, policy);
    }
    if NullFilter(d) {
      NullDiffers(hash, w, clients, d, current, policy, own, planned, at);
    }
    if PlainFilter(d) && Complete(hash, w, d, current) {
      PlainMeets(hash, current, Policy(d));
      NothingPlanned(hash, clients, w.clients, own, Id(current), d.actions, planned, at);
    }
  }
}
