/**
 * The whole autobrr reconciliation against a server that may fail at any request. An enabled filter is never
 * half-updated, and after any interruption one full run reaches the declared state, which the next run leaves alone.
 */
module AutobrrReconcile {
  import opened AutobrrClients
  import opened AutobrrFilters
  import opened AutobrrGuard
  import opened AutobrrMatch
  import opened AutobrrMeaning
  import opened AutobrrServer
  import opened JsonValues
  import opened Objects

  // ---------------------------------------------------------------- one declared filter

  const ARRAY_DEFAULTS: set<string> := {
    "resolutions", "codecs", "sources", "containers", "match_hdr", "except_hdr", "match_other", "except_other",
    "match_language", "except_language", "match_release_types", "formats", "quality", "media", "origins",
    "except_origins"
  }

  /** What a new filter is created with: never enabled. */
  function NewFilter(d: FilterDecl): Object {
    ((map key | key in ARRAY_DEFAULTS :: Arr([])) + d.values)["name" := Str(d.name)]["enabled" := Bool(false)]
  }

  /** The adapter's listing of filters names the same filters as the server's table. */
  ghost predicate SameFilters(filters: seq<Object>, stored: seq<Object>) {
    && |filters| == |stored|
    && forall i | 0 <= i < |filters| :: Id(filters[i]) == Id(stored[i]) && Name(filters[i]) == Name(stored[i])
  }

  ghost predicate SameLabelled(clients: seq<Object>, stored: seq<Object>) {
    |clients| == |stored| && forall i | 0 <= i < |clients| :: SameLabels(clients[i], stored[i])
  }

  /** What one step can do to the server, at every exit. */
  ghost predicate FilterStep(hash: Hash, before: World, after: World, d: FilterDecl, at: nat)
    requires ValidFilter(d)
  {
    Sound(after) && (after == before || (FilterTouched(before, after, d, at) && Guarded(hash, before, after, d, at)))
  }

  lemma LookupsAgree(clients: seq<Object>, stored: seq<Object>, a: ActionDecl)
    requires SameLabelled(clients, stored) && ValidAction(a)
    ensures ClientId(clients, a.client) == ClientId(stored, a.client)
    ensures (ClientFound(clients, a) <==> ClientFound(stored, a))
  {
    SameNames(clients, stored, a.client);
    var found := Search(stored, ByName(a.client));
    if found.One? {
      assert SameLabels(clients[found.index], stored[found.index]);
    }
  }

  lemma ActionClients(clients: seq<Object>, w: World, actions: seq<ActionDecl>)
    requires SameLabelled(clients, w.clients) && ValidActions(actions) && Sound(w)
    ensures SameClients(clients, w.clients, actions)
    ensures (forall k | 0 <= k < |actions| :: ClientFound(clients, actions[k])) <==>
        (forall k | 0 <= k < |actions| :: ClientFound(w.clients, actions[k]))
    ensures (forall k | 0 <= k < |actions| :: ClientFound(w.clients, actions[k])) ==>
        forall k | 0 <= k < |actions| && actions[k].client != "" :: ClientId(w.clients, actions[k].client).Num?
  {
    forall k | 0 <= k < |actions| {
      LookupsAgree(clients, w.clients, actions[k]);
    }
  }

  lemma NewFilterShape(d: FilterDecl, id: Json)
    requires ValidFilter(d)
    ensures
      var f := NewFilter(d)["id" := id];
      && Name(f) == Str(d.name) && EnabledOf(f) == Bool(false) && Get(f, "indexers").Null? && Id(f) == id
      && ActionsReady([], id, d.actions) && !Clashes(f, Policy(d)) && StartsEmpty(f, d)
  {
    assert "indexers" !in d.values && "indexers" !in ARRAY_DEFAULTS;
    NewFilterHolds(d, id);
  }

  lemma NewFilterHolds(d: FilterDecl, id: Json)
    requires ValidFilter(d)
    ensures !Clashes(NewFilter(d)["id" := id], Policy(d))
  {
    var f := NewFilter(d)["id" := id];
    HoldsItself(Policy(d));
    forall key | key in Policy(d)
      ensures key in f && HoldsAt(f[key], Policy(d)[key])
    {
      assert f[key] == Policy(d)[key];
    }
    HoldsCompatible(f, Policy(d));
    CompatibleIsComparable(f, Policy(d));
  }

  /** A created filter is disabled, has no actions, and lies beside the others. */
  lemma Created(hash: Hash, before: World, after: World, d: FilterDecl)
    requires ValidFilter(d) && Sound(before) && after == Posted(before, Filters, NewFilter(d))
    requires Search(before.filters, ByName(d.name)).Nothing?
    ensures
      var at := |before.filters|;
      var f := after.filters[at];
      && FilterStep(hash, before, after, d, at) && Search(after.filters, ByName(d.name)) == One(at)
      && Name(f) == Str(d.name) && EnabledOf(f) == Bool(false) && Get(f, "indexers").Null?
      && Id(f) == Num(before.nextId) && StartsEmpty(f, d)
      && ActionsOf(before.actions, Id(f)) == [] && ActionsReady([], Id(f), d.actions) && !Clashes(f, Policy(d))
  {
    var f := NewFilter(d)["id" := Num(before.nextId)];
    NewFilterShape(d, Num(before.nextId));
    AddedSound(before, after, d, f);
    AddedFilter(hash, before, after, d, f);
  }

  /** A filter of a new name under the next id is found where it was added. */
  lemma AddedSound(before: World, after: World, d: FilterDecl, f: Object)
    requires Sound(before) && Search(before.filters, ByName(d.name)).Nothing?
    requires after == before.(filters := before.filters + [f], nextId := before.nextId + 1)
    requires Name(f) == Str(d.name) && Id(f) == Num(before.nextId)
    ensures Sound(after) && Search(after.filters, ByName(d.name)) == One(|before.filters|)
  {
    NameMeans(f, d.name);
    SearchFinds(before.filters, after.filters, |before.filters|, ByName(d.name));
  }

  /** Any disabled filter of the name can be added beside the others. */
  lemma AddedFilter(hash: Hash, before: World, after: World, d: FilterDecl, f: Object)
    requires ValidFilter(d) && Sound(before) && Sound(after)
    requires after == before.(filters := before.filters + [f], nextId := before.nextId + 1)
    requires Name(f) == Str(d.name) && EnabledOf(f) == Bool(false) && Id(f) == Num(before.nextId)
    requires StartsEmpty(f, d)
    ensures FilterStep(hash, before, after, d, |before.filters|)
    ensures ActionsOf(before.actions, Id(f)) == []
  {
    NoActions(before.actions, Id(f));
    AddedTouched(before, after, d, f);
    assert after.filters[|before.filters|] == f;
  }

  lemma AddedTouched(before: World, after: World, d: FilterDecl, f: Object)
    requires after == before.(filters := before.filters + [f], nextId := before.nextId + 1)
    requires Name(f) == Str(d.name) && ActionsOf(before.actions, Id(f)) == [] && StartsEmpty(f, d)
    ensures FilterTouched(before, after, d, |before.filters|)
  {
    OwnFrameSelf([], d.actions);
    assert after.filters[..|before.filters|] == before.filters;
  }

  /** What is then done to the created filter is, all in all, an addition. */
  lemma CreatedThenUpdated(hash: Hash, before: World, created: World, after: World, d: FilterDecl, f: Object)
    requires ValidFilter(d) && ActionsOf(before.actions, Id(f)) == [] && EnabledOf(f) == Bool(false)
    requires StartsEmpty(f, d)
    requires created == before.(filters := before.filters + [f], nextId := before.nextId + 1)
    requires Updated(hash, created, after, d, |before.filters|)
    ensures FilterStep(hash, before, after, d, |before.filters|)
  {
    var at := |before.filters|;
    assert created.filters[at] == f;
    assert after.filters[..at] == before.filters;
  }

  /** The filter is still found where it was. */
  lemma StillFound(hash: Hash, before: World, after: World, d: FilterDecl, at: nat)
    requires ValidFilter(d) && at < |before.filters| && Updated(hash, before, after, d, at)
    requires Search(before.filters, ByName(d.name)) == One(at)
    ensures Search(after.filters, ByName(d.name)) == One(at)
  {
    NameMeans(after.filters[at], d.name);
    SearchFinds(before.filters, after.filters, at, ByName(d.name));
  }

  /** The actions as listed, with their filter's id put back. */
  function Restored(listed: seq<Object>, id: Json): seq<Object> {
    seq(|listed|, i requires 0 <= i < |listed| => listed[i]["filter_id" := id])
  }

  lemma RestoredOwn(own: seq<Object>, listed: seq<Object>, id: Json)
    requires |listed| == |own| && !id.Null?
    requires forall i | 0 <= i < |own| :: listed[i] == Listed(own[i]) && Get(own[i], "filter_id") == id
    ensures Restored(listed, id) == own
  {
    forall i | 0 <= i < |own|
      ensures listed[i]["filter_id" := id] == own[i]
    {
      assert own[i]["filter_id"] == id;
    }
  }

  /** The indexers and action clients that a filter refers to are looked up before it is written. */
  method LookUp(clients: seq<Object>, indexers: seq<Object>, d: FilterDecl, ghost w: World)
    returns (ok: bool, selected: set<int>)
    requires ValidFilter(d) && Sound(w) && indexers == w.indexers && SameLabelled(clients, w.clients)
    ensures ok <==> Provided(w, d)
    ensures ok ==> selected == Selected(w.indexers, d.indexers) && SameClients(clients, w.clients, d.actions)
    ensures ok ==>
        forall k | 0 <= k < |d.actions| && d.actions[k].client != "" :: ClientId(w.clients, d.actions[k].client).Num?
  {
    ok, selected := SelectIndexers(indexers, d.indexers);
    if !ok {
      return;
    }
    ActionClients(clients, w, d.actions);
    ok := forall k | 0 <= k < |d.actions| :: ClientFound(clients, d.actions[k]);
  }

  /** An existing filter: its detail is read, its references are looked up, and it is compared. */
  method UpdateExisting(hash: Hash, server: Server, clients: seq<Object>, indexers: seq<Object>, id: Json,
        d: FilterDecl, ghost at: nat)
    returns (ok: bool)
    requires ValidFilter(d) && Sound(server.world) && indexers == server.world.indexers
    requires SameLabelled(clients, server.world.clients)
    requires Search(server.world.filters, ByName(d.name)) == One(at) && id == Id(server.world.filters[at])
    modifies server`world, server`writes
    ensures FilterStep(hash, old(server.world), server.world, d, at)
    ensures old(server.writes) <= server.writes && (ok && NullFilter(d) ==> old(server.writes) < server.writes)
    ensures server.world == old(server.world) || Updated(hash, old(server.world), server.world, d, at)
    ensures FilterReady(old(server.world), d) && Provided(old(server.world), d) ==>
        FilterReady(server.world, d) && (server.reliable ==> ok)
    ensures ok ==> FilterDone(hash, server.world, d)
    ensures FilterDone(hash, old(server.world), d) && PlainFilter(d) ==>
        server.world == old(server.world) && server.writes == old(server.writes)
  {
    ghost var before := server.world;
    SearchMeans(before.filters, ByName(d.name));
    NameMeans(before.filters[at], d.name);
    IdFinds(before.filters, before.nextId, at);
    var current, listed;
    ok, current, listed := server.Detail(id);
    if !ok {
      return;
    }
    var selected;
    ok, selected := LookUp(clients, indexers, d, before);
    if !ok {
      return;
    }
    RestoredOwn(ActionsOf(before.actions, id), listed, id);
    ok := ApplyFilter(hash, server, clients, current, Restored(listed, id), selected, false, d, at);
    if server.world != before {
      StillFound(hash, before, server.world, d, at);
      UpdatedComparable(hash, before, server.world, d, at);
    }
  }

  /** Completes the filter that was just created. */
  method CompleteCreated(hash: Hash, server: Server, clients: seq<Object>, saved: Object, selected: set<int>,
        d: FilterDecl, ghost before: World)
    returns (ok: bool)
    requires ValidFilter(d) && Sound(before) && Search(before.filters, ByName(d.name)).Nothing?
    requires server.world == Posted(before, Filters, NewFilter(d)) && saved == server.world.filters[|before.filters|]
    requires Provided(before, d)
    requires selected == Selected(before.indexers, d.indexers) && SameClients(clients, before.clients, d.actions)
    requires forall k | 0 <= k < |d.actions| && d.actions[k].client != "" ::
        ClientId(before.clients, d.actions[k].client).Num?
    modifies server`world, server`writes
    ensures old(server.writes) < server.writes || !ok
    ensures old(server.writes) <= server.writes
    ensures FilterStep(hash, before, server.world, d, |before.filters|) && FilterReady(server.world, d)
    ensures server.reliable ==> ok
    ensures ok ==> FilterDone(hash, server.world, d)
    ensures |server.world.filters| == |before.filters| + 1
    ensures Id(saved) == Id(server.world.filters[|before.filters|]) && Name(saved) == Str(d.name)
  {
    ghost var at, created := |before.filters|, server.world;
    Created(hash, before, created, d);
    ok := ApplyFilter(hash, server, clients, saved, [], selected, true, d, at);
    if server.world != created {
      CreatedThenUpdated(hash, before, created, server.world, d, saved);
      StillFound(hash, created, server.world, d, at);
      UpdatedComparable(hash, created, server.world, d, at);
    }
  }

  /** A missing filter is created disabled and then completed like an existing one. */
  method CreateMissing(hash: Hash, server: Server, clients: seq<Object>, indexers: seq<Object>, d: FilterDecl)
    returns (ok: bool, saved: Object)
    requires ValidFilter(d) && Sound(server.world) && indexers == server.world.indexers
    requires SameLabelled(clients, server.world.clients)
    requires Search(server.world.filters, ByName(d.name)).Nothing?
    modifies server`world, server`writes
    ensures old(server.writes) <= server.writes && (ok ==> old(server.writes) < server.writes)
    ensures FilterStep(hash, old(server.world), server.world, d, |old(server.world.filters)|)
    ensures Provided(old(server.world), d) ==> FilterReady(server.world, d) && (server.reliable ==> ok)
    ensures ok ==> FilterDone(hash, server.world, d)
    ensures ok ==> |server.world.filters| == |old(server.world.filters)| + 1
    ensures ok ==>
        Id(saved) == Id(server.world.filters[|old(server.world.filters)|]) && Name(saved) == Str(d.name)
  {
    ghost var before := server.world;
    saved := map[];
    var selected;
    ok, selected := LookUp(clients, indexers, d, before);
    if !ok {
      return;
    }
    ok, saved := server.Post(Filters, NewFilter(d));
    if ok {
      ok := CompleteCreated(hash, server, clients, saved, selected, d, before);
    } else if server.world != before {
      Created(hash, before, server.world, d);
    }
  }

  lemma FilterListed(hash: Hash, filters: seq<Object>, saved: Object, before: World, after: World, d: FilterDecl)
    requires ValidFilter(d) && SameFilters(filters, before.filters)
    requires FilterStep(hash, before, after, d, |before.filters|) && |after.filters| == |before.filters| + 1
    requires Id(saved) == Id(after.filters[|before.filters|]) && Name(saved) == Str(d.name)
    ensures SameFilters(filters + [saved], after.filters)
  {
  }

  lemma StillListed(hash: Hash, filters: seq<Object>, before: World, after: World, d: FilterDecl, at: nat)
    requires ValidFilter(d) && SameFilters(filters, before.filters)
    requires FilterStep(hash, before, after, d, at) && at < |before.filters|
    ensures SameFilters(filters, after.filters)
  {
  }

  method ReconcileFilter(hash: Hash, server: Server, clients: seq<Object>, indexers: seq<Object>, filters: seq<Object>,
        bootstrap: bool, d: FilterDecl)
    returns (ok: bool, listed: seq<Object>, ghost at: nat)
    requires ValidFilter(d) && Sound(server.world) && indexers == server.world.indexers
    requires SameLabelled(clients, server.world.clients)
    requires SameFilters(filters, server.world.filters)
    modifies server`world, server`writes
    ensures FilterStep(hash, old(server.world), server.world, d, at)
    ensures ok ==> SameFilters(listed, server.world.filters)
    ensures FilterReady(old(server.world), d) && Provided(old(server.world), d) ==>
        FilterReady(server.world, d) && (server.reliable ==> ok)
    ensures ok ==>
        FilterDone(hash, server.world, d) || (bootstrap && Search(old(server.world.filters), ByName(d.name)).One?)
    ensures bootstrap ==> server.world == old(server.world) || at == |old(server.world.filters)|
    ensures old(server.writes) <= server.writes
    ensures ok && !bootstrap && NullFilter(d) ==> old(server.writes) < server.writes
    ensures bootstrap && Search(old(server.world.filters), ByName(d.name)).One? ==>
        server.world == old(server.world) && server.writes == old(server.writes)
    ensures FilterDone(hash, old(server.world), d) && PlainFilter(d) ==>
        server.world == old(server.world) && server.writes == old(server.writes)
  {
    listed, at := filters, |filters|;
    ghost var before := server.world;
    SameNames(filters, before.filters, d.name);
    var found := Search(filters, ByName(d.name));
    if found.Many? {
      return false, listed, at;
    }
    if found.Nothing? {
      var saved;
      ok, saved := CreateMissing(hash, server, clients, indexers, d);
      listed := filters + [saved];
      if ok {
        FilterListed(hash, filters, saved, before, server.world, d);
      }
    } else if bootstrap {
      ok := true;
    } else {
      at := found.index;
      ok := UpdateExisting(hash, server, clients, indexers, Id(filters[found.index]), d, at);
      StillListed(hash, filters, before, server.world, d, at);
    }
  }

  // ---------------------------------------------------------------- all declared filters

  predicate ValidFilters(decls: seq<FilterDecl>) {
    && (forall k | 0 <= k < |decls| :: ValidFilter(decls[k]))
    && (forall j, k | 0 <= j < k < |decls| :: decls[j].name != decls[k].name)
  }

  /** The filter and all its actions are identical. */
  ghost predicate FilterSame(start: World, w: World, i: nat)
    requires i < |w.filters|
  {
    i < |start.filters| && w.filters[i] == start.filters[i]
    && ActionsOf(w.actions, Id(w.filters[i])) == ActionsOf(start.actions, Id(w.filters[i]))
  }

  /**
   * The filter is a declared one; undeclared keys and actions are identical, or in a new filter empty; it is disabled
   * or complete.
   */
  ghost predicate FilterManaged(hash: Hash, start: World, w: World, d: FilterDecl, i: nat)
    requires ValidFilter(d) && i < |w.filters|
  {
    var f := w.filters[i];
    && Name(f) == Str(d.name)
    && (if i < |start.filters| then
          && FilterKept(start.filters[i], f, d)
          && OwnFrame(ActionsOf(start.actions, Id(f)), ActionsOf(w.actions, Id(f)), d.actions)
        else StartsEmpty(f, d))
    && (EnabledOf(f) == Bool(false) || Complete(hash, w, d, f))
  }

  ghost predicate FilterSafe(hash: Hash, start: World, w: World, decls: seq<FilterDecl>, i: nat)
    requires ValidFilters(decls) && i < |w.filters|
  {
    FilterSame(start, w, i) || exists k | 0 <= k < |decls| :: FilterManaged(hash, start, w, decls[k], i)
  }

  /**
   * Crash-atomic filters: whenever the run stops, every filter on the server is identical to what it was, or it is a
   * declared one that is disabled or has all declared policy, selected indexers and declared actions.
   */
  ghost predicate CrashAtomic(hash: Hash, start: World, w: World, decls: seq<FilterDecl>)
    requires ValidFilters(decls)
  {
    && |start.filters| <= |w.filters|
    && forall i | 0 <= i < |w.filters| :: FilterSafe(hash, start, w, decls, i)
  }

  /** A step for one filter does not concern the filter at another place. */
  lemma OtherPlace(hash: Hash, before: World, after: World, d: FilterDecl, at: nat, i: nat)
    requires ValidFilter(d) && Sound(before) && FilterStep(hash, before, after, d, at) && i < |after.filters|
    requires after == before || i != at
    ensures i < |before.filters| && after.filters[i] == before.filters[i]
    ensures ActionsOf(after.actions, Id(after.filters[i])) == ActionsOf(before.actions, Id(after.filters[i]))
    ensures forall e | ValidFilter(e) :: Complete(hash, after, e, after.filters[i]) <==>
        Complete(hash, before, e, after.filters[i])
  {
    if after != before {
      assert Id(after.filters[i]) != Id(after.filters[at]);
    }
  }

  lemma OwnFrameTwice(a: seq<Object>, b: seq<Object>, c: seq<Object>, actions: seq<ActionDecl>)
    requires OwnFrame(a, b, actions) && OwnFrame(b, c, actions)
    ensures OwnFrame(a, c, actions)
  {
    forall j | 0 <= j < |c|
      ensures Named(c[j], ActionNames(actions)) || (j < |a| && c[j] == a[j])
    {
      if j < |a| {
        assert OwnKept(a[j], b[j], actions) && OwnKept(b[j], c[j], actions);
      } else if j < |b| {
        assert OwnKept(b[j], c[j], actions);
      }
    }
    forall j | 0 <= j < |a|
      ensures OwnKept(a[j], c[j], actions)
    {
      OwnKeptTwice(a[j], b[j], c[j], actions);
    }
  }

  lemma OwnKeptTwice(o: Object, p: Object, q: Object, actions: seq<ActionDecl>)
    requires OwnKept(o, p, actions) && OwnKept(p, q, actions)
    ensures OwnKept(o, q, actions)
  {
    forall k | 0 <= k < |actions| && Name(o) == Str(actions[k].name)
      ensures ActionKept(o, q, actions[k])
    {
      assert ActionKept(o, p, actions[k]) && ActionKept(p, q, actions[k]);
    }
  }

  /** The touched filter stays safe. */
  lemma TouchedSafe(hash: Hash, start: World, before: World, after: World, decls: seq<FilterDecl>, n: nat, at: nat)
    requires ValidFilters(decls) && n < |decls| && |start.filters| <= |before.filters| && at < |after.filters|
    requires FilterTouched(before, after, decls[n], at) && Guarded(hash, before, after, decls[n], at)
    requires at < |before.filters| ==> FilterSafe(hash, start, before, decls, at)
    ensures FilterSafe(hash, start, after, decls, at)
  {
    var d := decls[n];
    if at < |before.filters| && !FilterSame(start, before, at) {
      var k :| 0 <= k < |decls| && FilterManaged(hash, start, before, decls[k], at);
      assert decls[k].name == d.name && k == n;
      if at < |start.filters| {
        var id := Id(after.filters[at]);
        OwnFrameTwice(ActionsOf(start.actions, id), ActionsOf(before.actions, id), ActionsOf(after.actions, id),
            d.actions);
      }
      assert FilterManaged(hash, start, after, decls[n], at);
    } else if at < |before.filters| && after.filters[at] == before.filters[at] &&
        ActionsOf(after.actions, Id(after.filters[at])) == ActionsOf(before.actions, Id(after.filters[at])) {
      assert FilterSame(start, after, at);
    } else {
      assert FilterManaged(hash, start, after, decls[n], at);
    }
  }

  lemma CrashAtomicStep(hash: Hash, start: World, before: World, after: World, decls: seq<FilterDecl>, n: nat, at: nat)
    requires ValidFilters(decls) && n < |decls| && Sound(before) && CrashAtomic(hash, start, before, decls)
    requires FilterStep(hash, before, after, decls[n], at)
    ensures CrashAtomic(hash, start, after, decls)
  {
    forall i | 0 <= i < |after.filters|
      ensures FilterSafe(hash, start, after, decls, i)
    {
      if after != before && i == at {
        if at < |before.filters| {
          assert FilterSafe(hash, start, before, decls, at);
        }
        TouchedSafe(hash, start, before, after, decls, n, at);
      } else {
        OtherPlace(hash, before, after, decls[n], at, i);
        OtherSafe(hash, start, before, after, decls, i);
      }
    }
  }

  lemma OtherSafe(hash: Hash, start: World, before: World, after: World, decls: seq<FilterDecl>, i: nat)
    requires ValidFilters(decls) && i < |before.filters| && i < |after.filters|
    requires FilterSafe(hash, start, before, decls, i)
    requires after.filters[i] == before.filters[i]
    requires ActionsOf(after.actions, Id(after.filters[i])) == ActionsOf(before.actions, Id(after.filters[i]))
    requires forall e | ValidFilter(e) :: Complete(hash, after, e, after.filters[i]) <==>
        Complete(hash, before, e, after.filters[i])
    ensures FilterSafe(hash, start, after, decls, i)
  {
    if !FilterSame(start, before, i) {
      var k :| 0 <= k < |decls| && FilterManaged(hash, start, before, decls[k], i);
      assert FilterManaged(hash, start, after, decls[k], i);
    }
  }

  /** A step for one filter is not felt by the declaration of another. */
  lemma OtherFilter(hash: Hash, before: World, after: World, d: FilterDecl, at: nat, e: FilterDecl)
    requires ValidFilter(d) && ValidFilter(e) && e.name != d.name && Sound(before)
    requires FilterStep(hash, before, after, d, at)
    ensures FilterReady(before, e) <==> FilterReady(after, e)
    ensures FilterDone(hash, before, e) <==> FilterDone(hash, after, e)
    ensures SameSearch(before.filters, after.filters, ByName(e.name))
  {
    if after != before {
      NameMeans(after.filters[at], e.name);
      if at < |before.filters| {
        NameMeans(before.filters[at], e.name);
      }
      SearchUndisturbed(before.filters, after.filters, at, ByName(e.name));
      var found := Search(after.filters, ByName(e.name));
      if found.One? {
        FoundByName(after.filters, e.name, found.index);
        OtherPlace(hash, before, after, d, at, found.index);
      }
    }
  }

  predicate FiltersReady(w: World, decls: seq<FilterDecl>)
    requires ValidFilters(decls)
  {
    forall k | 0 <= k < |decls| :: FilterReady(w, decls[k])
  }

  predicate AllProvided(w: World, decls: seq<FilterDecl>)
    requires ValidFilters(decls)
  {
    forall k | 0 <= k < |decls| :: Provided(w, decls[k])
  }

  predicate FiltersDone(hash: Hash, w: World, decls: seq<FilterDecl>, n: nat)
    requires ValidFilters(decls) && n <= |decls|
  {
    forall k | 0 <= k < n :: FilterDone(hash, w, decls[k])
  }

  /** What a finished run owes a declaration: in bootstrap mode an existing filter is left alone. */
  predicate FilterServed(hash: Hash, bootstrap: bool, before: World, w: World, d: FilterDecl)
    requires ValidFilter(d)
  {
    FilterDone(hash, w, d) || (bootstrap && Search(before.filters, ByName(d.name)).One?)
  }

  /** The first declarations were served, and those to come find what was there before. */
  ghost predicate FiltersServed(hash: Hash, bootstrap: bool, before: World, w: World, decls: seq<FilterDecl>, n: nat)
    requires ValidFilters(decls) && n <= |decls|
  {
    && (forall k | 0 <= k < n :: FilterServed(hash, bootstrap, before, w, decls[k]))
    && (forall k | n <= k < |decls| :: SameSearch(before.filters, w.filters, ByName(decls[k].name)))
  }

  lemma OtherServed(hash: Hash, bootstrap: bool, start: World, before: World, after: World, d: FilterDecl, at: nat,
        e: FilterDecl)
    requires ValidFilter(d) && ValidFilter(e) && e.name != d.name && Sound(before)
    requires FilterStep(hash, before, after, d, at)
    ensures FilterReady(before, e) ==> FilterReady(after, e)
    ensures FilterServed(hash, bootstrap, start, before, e) ==> FilterServed(hash, bootstrap, start, after, e)
    ensures SameSearch(start.filters, before.filters, ByName(e.name)) ==>
        SameSearch(start.filters, after.filters, ByName(e.name))
  {
    OtherFilter(hash, before, after, d, at, e);
  }

  lemma FiltersStep(hash: Hash, bootstrap: bool, start: World, before: World, after: World, decls: seq<FilterDecl>,
        n: nat, at: nat)
    requires ValidFilters(decls) && n < |decls| && Sound(before) && FilterStep(hash, before, after, decls[n], at)
    ensures FiltersReady(before, decls) && FilterReady(after, decls[n]) ==> FiltersReady(after, decls)
    ensures
      && FiltersServed(hash, bootstrap, start, before, decls, n)
      && FilterServed(hash, bootstrap, before, after, decls[n])
      ==> FiltersServed(hash, bootstrap, start, after, decls, n + 1)
  {
    forall k | 0 <= k < |decls| && k != n {
      OtherServed(hash, bootstrap, start, before, after, decls[n], at, decls[k]);
    }
  }

  /** Every filter that was there is identical with its actions. */
  ghost predicate FiltersUntouched(before: World, w: World) {
    |before.filters| <= |w.filters| && forall i | 0 <= i < |before.filters| :: FilterSame(before, w, i)
  }

  /** Adding a filter touches no other. */
  lemma UntouchedStep(hash: Hash, start: World, before: World, after: World, d: FilterDecl, at: nat)
    requires ValidFilter(d) && Sound(before) && FilterStep(hash, before, after, d, at)
    requires FiltersUntouched(start, before) && (after == before || at == |before.filters|)
    ensures FiltersUntouched(start, after)
  {
    forall i | 0 <= i < |start.filters|
      ensures FilterSame(start, after, i)
    {
      assert FilterSame(start, before, i);
      OtherPlace(hash, before, after, d, at, i);
    }
  }

  /** Clients and indexers stay, ids only grow, and the filters are safe. */
  ghost predicate FilterPhase(hash: Hash, start: World, before: World, w: World, decls: seq<FilterDecl>,
        bootstrap: bool)
    requires ValidFilters(decls)
  {
    && Sound(w) && CrashAtomic(hash, start, w, decls)
    && w.clients == before.clients && w.indexers == before.indexers && before.nextId <= w.nextId
    && (FiltersReady(before, decls) && AllProvided(before, decls) ==> FiltersReady(w, decls))
    && (bootstrap ==> FiltersUntouched(before, w))
  }

  /** A null is declared for one of the filters or its actions. */
  predicate NullFilters(decls: seq<FilterDecl>) {
    decls != [] && (NullFilters(decls[..|decls| - 1]) || NullFilter(decls[|decls| - 1]))
  }

  /** Everything declared is done already and can be recognised as done. */
  predicate NothingToDo(hash: Hash, w: World, decls: seq<FilterDecl>)
    requires ValidFilters(decls)
  {
    FiltersDone(hash, w, decls, |decls|) && forall k | 0 <= k < |decls| :: PlainFilter(decls[k])
  }

  method FilterTurn(hash: Hash, server: Server, clients: seq<Object>, indexers: seq<Object>, filters: seq<Object>,
        bootstrap: bool, decls: seq<FilterDecl>, n: nat, ghost start: World, ghost before: World)
    returns (ok: bool, listed: seq<Object>)
    requires ValidFilters(decls) && n < |decls| && FilterPhase(hash, start, before, server.world, decls, bootstrap)
    requires indexers == before.indexers && SameLabelled(clients, before.clients)
    requires SameFilters(filters, server.world.filters)
    modifies server`world, server`writes
    ensures FilterPhase(hash, start, before, server.world, decls, bootstrap)
    ensures old(server.writes) <= server.writes
    ensures ok && !bootstrap && NullFilter(decls[n]) ==> old(server.writes) < server.writes
    ensures ok ==> SameFilters(listed, server.world.filters)
    ensures FiltersReady(before, decls) && AllProvided(before, decls) && server.reliable ==> ok
    ensures ok && FiltersServed(hash, bootstrap, before, old(server.world), decls, n) ==>
        FiltersServed(hash, bootstrap, before, server.world, decls, n + 1)
    ensures NothingToDo(hash, old(server.world), decls) ==>
        server.world == old(server.world) && server.writes == old(server.writes)
  {
    ghost var earlier := server.world;
    ghost var at;
    assert Provided(earlier, decls[n]) <==> Provided(before, decls[n]);
    ok, listed, at := ReconcileFilter(hash, server, clients, indexers, filters, bootstrap, decls[n]);
    CrashAtomicStep(hash, start, earlier, server.world, decls, n, at);
    FiltersStep(hash, bootstrap, before, earlier, server.world, decls, n, at);
    if bootstrap {
      UntouchedStep(hash, before, earlier, server.world, decls[n], at);
    }
  }

  method ReconcileFilters(hash: Hash, server: Server, clients: seq<Object>, indexers: seq<Object>,
        filters: seq<Object>, bootstrap: bool, decls: seq<FilterDecl>, ghost start: World)
    returns (ok: bool)
    requires ValidFilters(decls) && Sound(server.world) && indexers == server.world.indexers
    requires SameLabelled(clients, server.world.clients)
    requires SameFilters(filters, server.world.filters) && CrashAtomic(hash, start, server.world, decls)
    modifies server`world, server`writes
    ensures FilterPhase(hash, start, old(server.world), server.world, decls, bootstrap)
    ensures old(server.writes) <= server.writes
    ensures ok && !bootstrap && NullFilters(decls) ==> old(server.writes) < server.writes
    ensures FiltersReady(old(server.world), decls) && AllProvided(old(server.world), decls) && server.reliable ==> ok
    ensures ok ==> FiltersServed(hash, bootstrap, old(server.world), server.world, decls, |decls|)
    ensures NothingToDo(hash, old(server.world), decls) ==>
        server.world == old(server.world) && server.writes == old(server.writes)
  {
    ok := true;
    var listed := filters;
    for n := 0 to |decls|
      invariant ok && FilterPhase(hash, start, old(server.world), server.world, decls, bootstrap)
      invariant SameFilters(listed, server.world.filters)
      invariant FiltersServed(hash, bootstrap, old(server.world), server.world, decls, n)
      invariant old(server.writes) <= server.writes
      invariant !bootstrap && NullFilters(decls[..n]) ==> old(server.writes) < server.writes
      invariant NothingToDo(hash, old(server.world), decls) ==>
          server.world == old(server.world) && server.writes == old(server.writes)
    {
      assert decls[..n + 1][..n] == decls[..n];
      ok, listed := FilterTurn(hash, server, clients, indexers, listed, bootstrap, decls, n, start, old(server.world));
      if !ok {
        return;
      }
    }
    assert decls[..|decls|] == decls;
  }

  // ---------------------------------------------------------------- the whole run

  datatype Config = Config(clients: seq<ClientDecl>, filters: seq<FilterDecl>, bootstrap: bool)

  predicate ValidConfig(config: Config) {
    ValidClients(config.clients) && ValidFilters(config.filters)
  }

  /** The client of an action exists with the action's type, or is declared with it. */
  predicate ClientComes(clients: seq<Object>, decls: seq<ClientDecl>, a: ActionDecl)
    requires ValidClients(decls) && ValidAction(a)
  {
    || ClientFound(clients, a)
    || exists c | 0 <= c < |decls| :: decls[c].name == a.client && decls[c].values["type"] == a.values["type"]
  }

  predicate FilterComes(w: World, decls: seq<ClientDecl>, d: FilterDecl)
    requires ValidClients(decls) && ValidFilter(d)
  {
    && (forall i | 0 <= i < |d.indexers| :: IndexerFound(w.indexers, d.indexers[i]))
    && (forall k | 0 <= k < |d.actions| :: ClientComes(w.clients, decls, d.actions[k]))
  }

  /** The server's objects do not stand in the way: names are unambiguous, types agree, references can be resolved. */
  predicate Ready(w: World, config: Config)
    requires ValidConfig(config)
  {
    && ClientsReady(w.clients, config.clients) && FiltersReady(w, config.filters)
    && forall k | 0 <= k < |config.filters| :: FilterComes(w, config.clients, config.filters[k])
  }

  /**
   * The declared state: each declared client, filter and action exists exactly once by name, matches its declaration
   * and is enabled as declared.
   */
  predicate Converged(hash: Hash, w: World, ledgers: Ledgers, config: Config)
    requires ValidConfig(config)
  {
    ClientsSettled(hash, w.clients, ledgers, config.clients) && FiltersDone(hash, w, config.filters, |config.filters|)
  }

  /** Each declared client holds the declared secrets. */
  predicate SecretsInPlace(hash: Hash, w: World, config: Config) {
    forall i | 0 <= i < |config.clients| :: ClientHolds(hash, w.clients, config.clients[i])
  }

  /** Declarations that can be matched at all: no nulls, no odd empty secrets, and secrets only in clients. */
  predicate Reachable(config: Config) {
    && (forall i | 0 <= i < |config.clients| :: Matchable(config.clients[i].values))
    && (forall k | 0 <= k < |config.filters| :: PlainFilter(config.filters[k]))
  }

  /**
   * Clients keep place and labels, and what is not declared for them; undeclared ones are identical, and added ones
   * have nothing but what is declared and their labels.
   */
  ghost predicate ClientsSafe(start: World, w: World, decls: seq<ClientDecl>) {
    && ClientsFrame(start, start.(clients := w.clients, nextId := w.nextId), ClientNames(decls))
    && ClientPaths(start.clients, w.clients, decls) && AddedClients(start.clients, w.clients, decls)
  }

  /**
   * Each declared client holds the declared secrets if and only if the ledger had not verified them at the start, or
   * was in step with the server for this client then.
   */
  ghost predicate HeldAsKnown(hash: Hash, start: World, known: Ledgers, w: World, config: Config)
    requires ValidConfig(config)
  {
    forall i | 0 <= i < |config.clients| ::
      ClientHolds(hash, w.clients, config.clients[i]) <==>
        !ClientSettled(hash, start.clients, known, config.clients[i])
        || ClientInStep(hash, start.clients, known, config.clients[i])
  }

  lemma AllHeldAsKnown(hash: Hash, start: World, known: Ledgers, w: World, ledgers: Ledgers, config: Config)
    requires ValidConfig(config) && Injective(hash)
    requires ClientsHandled(hash, start.clients, known, w.clients, ledgers, config.clients)
    requires ClientsGiven(hash, false, start.clients, known, w.clients, config.clients, |config.clients|)
    ensures HeldAsKnown(hash, start, known, w, config)
  {
    forall i | 0 <= i < |config.clients| {
      HeldExactly(hash, start.clients, known, w.clients, ledgers, config.clients[i]);
    }
  }

  /** The same over two runs, the first of which was cut off. */
  lemma GivenOverTwo(hash: Hash, start: World, known: Ledgers, middle: World, state: Ledgers, w: World,
        ledgers: Ledgers, config: Config)
    requires ValidConfig(config)
    requires ClientsHandled(hash, start.clients, known, middle.clients, state, config.clients)
    requires ClientsHandled(hash, middle.clients, state, w.clients, ledgers, config.clients)
    requires ClientsGiven(hash, false, middle.clients, state, w.clients, config.clients, |config.clients|)
    ensures Injective(hash) ==> HeldAsKnown(hash, start, known, w, config)
  {
    forall i | 0 <= i < |config.clients|
      ensures ClientHandled(hash, start.clients, known, w.clients, ledgers, config.clients[i])
      ensures ClientGiven(hash, start.clients, known, w.clients, config.clients[i])
    {
      GivenTwice(hash, start.clients, known, middle.clients, state, w.clients, ledgers, config.clients[i]);
    }
    if Injective(hash) {
      AllHeldAsKnown(hash, start, known, w, ledgers, config);
    }
  }

  lemma UndeclaredClient(before: World, after: World, names: set<string>, name: string)
    requires ClientsFrame(before, after, names) && name !in names
    ensures SameSearch(before.clients, after.clients, ByName(name))
  {
    SearchMeans(before.clients, ByName(name));
    SearchMeans(after.clients, ByName(name));
    forall i | 0 <= i < |after.clients|
      ensures Satisfies(after.clients[i], ByName(name)) ==>
          i < |before.clients| && after.clients[i] == before.clients[i]
      ensures i < |before.clients| && Satisfies(before.clients[i], ByName(name)) ==>
          after.clients[i] == before.clients[i]
    {
      NameMeans(after.clients[i], name);
      if i < |before.clients| {
        NameMeans(before.clients[i], name);
      }
    }
  }

  /** Whatever the client phase did, an action's client still comes, and a finished phase brought it. */
  lemma ClientsCame(before: World, after: World, decls: seq<ClientDecl>, a: ActionDecl)
    requires ValidClients(decls) && ValidAction(a) && ClientsFrame(before, after, ClientNames(decls))
    requires ClientsReady(before.clients, decls) && ClientsReady(after.clients, decls)
    requires ClientComes(before.clients, decls, a)
    ensures ClientComes(after.clients, decls, a)
    ensures (forall i | 0 <= i < |decls| :: Search(after.clients, ByName(decls[i].name)).One?) ==>
        ClientFound(after.clients, a)
  {
    if a.client in ClientNames(decls) {
      var c :| 0 <= c < |decls| && decls[c].name == a.client;
      assert ClientReady(before.clients, decls[c]) && ClientReady(after.clients, decls[c]);
      assert ClientFound(before.clients, a) && a.client != "" ==> decls[c].values["type"] == a.values["type"];
    } else {
      UndeclaredClient(before, after, ClientNames(decls), a.client);
    }
  }

  lemma FiltersCame(before: World, after: World, config: Config)
    requires ValidConfig(config) && Ready(before, config) && ClientsFrame(before, after, ClientNames(config.clients))
    requires ClientsReady(after.clients, config.clients)
    ensures Ready(after, config)
    ensures (forall i | 0 <= i < |config.clients| :: Search(after.clients, ByName(config.clients[i].name)).One?) ==>
        AllProvided(after, config.filters)
  {
    forall k | 0 <= k < |config.filters|
      ensures FilterComes(after, config.clients, config.filters[k]) && FilterReady(after, config.filters[k])
      ensures (forall i | 0 <= i < |config.clients| :: Search(after.clients, ByName(config.clients[i].name)).One?) ==>
          Provided(after, config.filters[k])
    {
      var d := config.filters[k];
      assert FilterComes(before, config.clients, d) && FilterReady(before, d);
      forall j | 0 <= j < |d.actions| {
        ClientsCame(before, after, config.clients, d.actions[j]);
      }
    }
  }

  lemma Untouched(hash: Hash, start: World, w: World, decls: seq<FilterDecl>)
    requires ValidFilters(decls) && w.filters == start.filters && w.actions == start.actions
    ensures CrashAtomic(hash, start, w, decls)
  {
    forall i | 0 <= i < |w.filters|
      ensures FilterSafe(hash, start, w, decls, i)
    {
      assert FilterSame(start, w, i);
    }
  }

  lemma ListedLabels(clients: seq<Object>, w: World)
    requires Sound(w) && |clients| == |w.clients| && forall i | 0 <= i < |clients| :: clients[i] == Redact(w.clients[i])
    ensures Listing(clients, w.clients, {})
  {
    forall i | 0 <= i < |clients| {
      LabelsShown(w.clients[i]);
    }
  }

  // ---------------------------------------------------------------- what a run leaves on the server

  /** Every filter is identical with its actions, or a declared one that is disabled or has all that is declared. */
  ghost predicate FiltersGuarded(start: World, w: World, decls: seq<FilterDecl>) {
    forall i | 0 <= i < |w.filters| ::
      || FilterSame(start, w, i)
      || exists k | 0 <= k < |decls| :: GuardedBy(w, decls[k], w.filters[i])
  }

  ghost predicate GuardedBy(w: World, d: FilterDecl, f: Object) {
    At(Obj(f), ["name"]) == Ok(Str(d.name)) && (FilterEnabled(f, false) || FilterFilled(w, d, f))
  }

  lemma AtomicIsGuarded(hash: Hash, start: World, w: World, decls: seq<FilterDecl>)
    requires ValidFilters(decls) && Sound(w) && CrashAtomic(hash, start, w, decls)
    ensures FiltersGuarded(start, w, decls)
  {
    forall i | 0 <= i < |w.filters| && !FilterSame(start, w, i)
      ensures exists k | 0 <= k < |decls| :: GuardedBy(w, decls[k], w.filters[i])
    {
      assert FilterSafe(hash, start, w, decls, i);
      var k :| 0 <= k < |decls| && FilterManaged(hash, start, w, decls[k], i);
      if Complete(hash, w, decls[k], w.filters[i]) {
        CompleteIsFilled(hash, w, decls[k], w.filters[i]);
      }
      assert ["name"][1..] == [] && GuardedBy(w, decls[k], w.filters[i]);
    }
  }

  /** In bootstrap mode what exists under the name is left alone. */
  ghost predicate Passed(bootstrap: bool, objects: seq<Object>, name: string) {
    bootstrap && exists i: nat :: OnlyNamed(objects, name, i)
  }

  /** Everything declared is on the server as declared, unless bootstrap mode passes over it. */
  ghost predicate AllThere(start: World, w: World, config: Config)
    requires ValidConfig(config)
  {
    && (forall i | 0 <= i < |config.clients| ::
      ClientThere(w.clients, config.clients[i]) || Passed(config.bootstrap, start.clients, config.clients[i].name))
    && (forall k | 0 <= k < |config.filters| ::
      FilterThere(w, config.filters[k]) || Passed(config.bootstrap, start.filters, config.filters[k].name))
  }

  /** In bootstrap mode clients, filters and their actions that exist are identical. */
  ghost predicate ExistingSame(start: World, w: World) {
    start.clients <= w.clients && FiltersUntouched(start, w)
  }

  lemma ServedClient(hash: Hash, bootstrap: bool, start: World, known: Ledgers, w: World, ledgers: Ledgers,
        d: ClientDecl)
    requires ValidClient(d) && ClientHandled(hash, start.clients, known, w.clients, ledgers, d)
    requires ClientServed(hash, bootstrap, start.clients, known, w.clients, d)
    ensures ClientThere(w.clients, d) || Passed(bootstrap, start.clients, d.name)
  {
    if bootstrap && Search(start.clients, ByName(d.name)).One? {
      FoundIsOnly(start.clients, d.name, Search(start.clients, ByName(d.name)).index);
    } else {
      if ClientLeft(start.clients, known, w.clients, ledgers, d.name) {
        LeftMeans(hash, start.clients, known, w.clients, ledgers, d);
      }
      SettledIsThere(hash, w.clients, ledgers, d);
    }
  }

  lemma ServedFilter(hash: Hash, bootstrap: bool, start: World, middle: World, w: World, d: FilterDecl)
    requires ValidFilter(d) && Sound(w) && middle.filters == start.filters
    requires FilterServed(hash, bootstrap, middle, w, d)
    ensures FilterThere(w, d) || Passed(bootstrap, start.filters, d.name)
  {
    if FilterDone(hash, w, d) {
      DoneIsThere(hash, w, d);
    } else {
      FoundIsOnly(start.filters, d.name, Search(start.filters, ByName(d.name)).index);
    }
  }

  lemma ServedIsThere(hash: Hash, start: World, known: Ledgers, middle: World, w: World, ledgers: Ledgers,
        config: Config)
    requires ValidConfig(config) && Sound(w) && middle.filters == start.filters
    requires ClientsHandled(hash, start.clients, known, w.clients, ledgers, config.clients)
    requires ClientsGiven(hash, config.bootstrap, start.clients, known, w.clients, config.clients, |config.clients|)
    requires FiltersServed(hash, config.bootstrap, middle, w, config.filters, |config.filters|)
    ensures AllThere(start, w, config)
  {
    forall i | 0 <= i < |config.clients| {
      ServedClient(hash, config.bootstrap, start, known, w, ledgers, config.clients[i]);
    }
    forall k | 0 <= k < |config.filters| {
      ServedFilter(hash, config.bootstrap, start, middle, w, config.filters[k]);
    }
  }

  /** What holds of the server whenever a run stops. */
  ghost predicate RunSafe(hash: Hash, start: World, w: World, config: Config)
    requires ValidConfig(config)
  {
    && Sound(w) && CrashAtomic(hash, start, w, config.filters) && ClientsSafe(start, w, config.clients)
    && FiltersGuarded(start, w, config.filters) && (config.bootstrap ==> ExistingSame(start, w))
    && w.indexers == start.indexers && (Ready(start, config) ==> Ready(w, config))
  }

  lemma ClientsRan(hash: Hash, start: World, middle: World, config: Config)
    requires ValidConfig(config) && Sound(middle) && ClientsFrame(start, middle, ClientNames(config.clients))
    requires ClientPaths(start.clients, middle.clients, config.clients)
    requires AddedClients(start.clients, middle.clients, config.clients)
    requires config.bootstrap ==> start.clients <= middle.clients
    requires ClientsReady(start.clients, config.clients) ==> ClientsReady(middle.clients, config.clients)
    ensures RunSafe(hash, start, middle, config)
    ensures
      && Ready(start, config)
      && (forall i | 0 <= i < |config.clients| :: Search(middle.clients, ByName(config.clients[i].name)).One?)
      ==> AllProvided(middle, config.filters)
  {
    Untouched(hash, start, middle, config.filters);
    AtomicIsGuarded(hash, start, middle, config.filters);
    if Ready(start, config) {
      FiltersCame(start, middle, config);
    }
  }

  lemma UntouchedTwice(a: World, b: World, c: World)
    requires FiltersUntouched(a, b) && FiltersUntouched(b, c)
    ensures FiltersUntouched(a, c)
  {
    forall i | 0 <= i < |a.filters|
      ensures FilterSame(a, c, i)
    {
      assert FilterSame(a, b, i) && FilterSame(b, c, i);
    }
  }

  lemma FiltersRan(hash: Hash, start: World, middle: World, after: World, config: Config)
    requires ValidConfig(config) && ClientsSafe(start, middle, config.clients) && middle.indexers == start.indexers
    requires Ready(start, config) ==> Ready(middle, config) && FiltersReady(after, config.filters)
    requires Sound(after) && CrashAtomic(hash, start, after, config.filters)
    requires after.clients == middle.clients && after.indexers == middle.indexers && middle.nextId <= after.nextId
    requires config.bootstrap ==> ExistingSame(start, middle) && FiltersUntouched(middle, after)
    ensures RunSafe(hash, start, after, config)
  {
    AtomicIsGuarded(hash, start, after, config.filters);
    if config.bootstrap {
      UntouchedTwice(start, middle, after);
    }
    if Ready(start, config) {
      forall k | 0 <= k < |config.filters|
        ensures FilterComes(after, config.clients, config.filters[k])
      {
        assert FilterComes(middle, config.clients, config.filters[k]);
      }
    }
  }

  method ReadServer(server: Server) returns (ok: bool, clients: seq<Object>, filters: seq<Object>,
        indexers: seq<Object>)
    requires Sound(server.world)
    ensures ok ==> Listing(clients, server.world.clients, {}) && SameFilters(filters, server.world.filters)
    ensures ok ==> indexers == server.world.indexers
    ensures server.reliable ==> ok
  {
    clients, filters, indexers := [], [], [];
    ok, clients := server.List(Clients);
    if ok {
      ListedLabels(clients, server.world);
      ok, filters := server.List(Filters);
    }
    if ok {
      ok, indexers := server.Indexers();
    }
  }

  /** The first half of a run: the listings, and then the clients. */
  method ClientPhase(hash: Hash, server: Server, state: Ledgers, config: Config)
    returns (ok: bool, ledgers: Ledgers, clients: seq<Object>, filters: seq<Object>, indexers: seq<Object>)
    requires ValidConfig(config) && Sound(server.world)
    modifies server`world, server`writes
    ensures RunSafe(hash, old(server.world), server.world, config)
    ensures ClientsOutcome(hash, old(server.world), state, old(server.writes), server.world, ledgers, server.writes,
        config.clients, config.bootstrap)
    ensures Ready(old(server.world), config) && server.reliable ==> ok
    ensures ok ==> SameLabelled(clients, server.world.clients) && SameFilters(filters, server.world.filters)
    ensures ok ==> indexers == server.world.indexers
    ensures ok ==>
        ClientsSoFar(hash, server.world.clients, ledgers, config.clients, |config.clients|, config.bootstrap)
    ensures ok && Ready(old(server.world), config) ==> AllProvided(server.world, config.filters)
    ensures ok ==>
        ClientsGiven(hash, config.bootstrap, old(server.world.clients), state, server.world.clients, config.clients,
          |config.clients|)
    ensures ok && !config.bootstrap && NullClients(config.clients) ==> old(server.writes) < server.writes
  {
    ledgers := state;
    ghost var start := server.world;
    ok, clients, filters, indexers := ReadServer(server);
    NothingSent(hash, start, state, server.writes, config.clients, config.bootstrap);
    if ok {
      ok, ledgers, clients := ReconcileClients(hash, server, state, clients, config.bootstrap, config.clients);
    }
    ClientsRan(hash, start, server.world, config);
  }

  /** A managed run that came to its end. */
  lemma Finished(hash: Hash, start: World, known: Ledgers, w: World, ledgers: Ledgers, config: Config)
    requires ValidConfig(config)
    requires ClientsHandled(hash, start.clients, known, w.clients, ledgers, config.clients)
    requires ClientsGiven(hash, false, start.clients, known, w.clients, config.clients, |config.clients|)
    requires ClientsSoFar(hash, w.clients, ledgers, config.clients, |config.clients|, false)
    requires FiltersDone(hash, w, config.filters, |config.filters|)
    ensures Reachable(config) ==> Converged(hash, w, ledgers, config)
    ensures Injective(hash) ==> HeldAsKnown(hash, start, known, w, config)
  {
    if Injective(hash) {
      AllHeldAsKnown(hash, start, known, w, ledgers, config);
    }
  }

  /**
   * One run, which any request may end. The clients come first, then the filters; in bootstrap mode existing objects
   * are left alone.
   */
  method Reconcile(hash: Hash, server: Server, state: Ledgers, config: Config) returns (ok: bool, ledgers: Ledgers)
    requires ValidConfig(config) && Sound(server.world)
    modifies server`world, server`writes
    ensures RunSafe(hash, old(server.world), server.world, config)
    ensures Ready(old(server.world), config) && server.reliable ==> ok
    ensures ok ==> AllThere(old(server.world), server.world, config)
    ensures ok && !config.bootstrap && Reachable(config) ==> Converged(hash, server.world, ledgers, config)
    ensures ClientsInStep(hash, old(server.world.clients), state, config.clients) ==>
        ClientsInStep(hash, server.world.clients, ledgers, config.clients)
    ensures ClientsHandled(hash, old(server.world.clients), state, server.world.clients, ledgers, config.clients)
    ensures ok ==>
        ClientsGiven(hash, config.bootstrap, old(server.world.clients), state, server.world.clients, config.clients,
          |config.clients|)
    ensures ok && !config.bootstrap && Injective(hash) ==>
        HeldAsKnown(hash, old(server.world), state, server.world, config)
    ensures ok && !config.bootstrap && (NullClients(config.clients) || NullFilters(config.filters)) ==>
        old(server.writes) < server.writes
    ensures Converged(hash, old(server.world), state, config) && Reachable(config) ==>
        server.world == old(server.world) && server.writes == old(server.writes) && ledgers == state
  {
    ghost var start := server.world;
    var clients, filters, indexers;
    ok, ledgers, clients, filters, indexers := ClientPhase(hash, server, state, config);
    ghost var middle := server.world;
    if ok {
      ok := ReconcileFilters(hash, server, clients, indexers, filters, config.bootstrap, config.filters, start);
      FiltersRan(hash, start, middle, server.world, config);
    }
    if ok {
      ServedIsThere(hash, start, state, middle, server.world, ledgers, config);
    }
    if ok && !config.bootstrap {
      Finished(hash, start, state, server.world, ledgers, config);
    }
  }

  /** Undeclared clients, and undeclared filters with their actions, are identical. */
  ghost predicate UndeclaredSame(start: World, w: World, config: Config) {
    && |start.clients| <= |w.clients| && |start.filters| <= |w.filters|
    && (forall i | 0 <= i < |start.clients| && !Named(start.clients[i], ClientNames(config.clients)) ::
        w.clients[i] == start.clients[i])
    && (forall i | 0 <= i < |start.filters| && !Named(start.filters[i], FilterNames(config.filters)) ::
        FilterSame(start, w, i))
  }

  function FilterNames(decls: seq<FilterDecl>): set<string> {
    set k | 0 <= k < |decls| :: decls[k].name
  }

  lemma UndeclaredAfterRun(hash: Hash, start: World, w: World, config: Config)
    requires ValidConfig(config) && RunSafe(hash, start, w, config)
    ensures UndeclaredSame(start, w, config)
  {
    forall i | 0 <= i < |start.filters|
      ensures Named(start.filters[i], FilterNames(config.filters)) || FilterSame(start, w, i)
    {
      assert FilterSafe(hash, start, w, config.filters, i);
      if !FilterSame(start, w, i) {
        var k :| 0 <= k < |config.filters| && FilterManaged(hash, start, w, config.filters[k], i);
        assert Named(start.filters[i], FilterNames(config.filters));
      }
    }
    forall i | 0 <= i < |start.clients| && !Named(start.clients[i], ClientNames(config.clients))
      ensures w.clients[i] == start.clients[i]
    {
      assert SameLabels(w.clients[i], start.clients[i]);
    }
  }

  lemma UndeclaredTwice(a: World, b: World, c: World, config: Config)
    requires UndeclaredSame(a, b, config) && UndeclaredSame(b, c, config)
    ensures UndeclaredSame(a, c, config)
  {
    forall i | 0 <= i < |a.filters| && !Named(a.filters[i], FilterNames(config.filters))
      ensures FilterSame(a, c, i)
    {
      assert FilterSame(a, b, i) && FilterSame(b, c, i);
    }
  }

  /** One managed run, with or without requests that may fail. */
  method RunOnce(hash: Hash, server: Server, reliable: bool, state: Ledgers, config: Config)
    returns (ok: bool, ledgers: Ledgers)
    requires ValidConfig(config) && Sound(server.world) && Ready(server.world, config) && Reachable(config)
    requires !config.bootstrap
    modifies server
    ensures Sound(server.world) && Ready(server.world, config)
        && UndeclaredSame(old(server.world), server.world, config)
    ensures reliable ==> ok
    ensures ok ==> Converged(hash, server.world, ledgers, config)
    ensures ok ==> AllThere(old(server.world), server.world, config)
    ensures ClientsHandled(hash, old(server.world.clients), state, server.world.clients, ledgers, config.clients)
    ensures ok ==>
        ClientsGiven(hash, false, old(server.world.clients), state, server.world.clients, config.clients,
          |config.clients|)
    ensures Converged(hash, old(server.world), state, config) ==>
        server.world == old(server.world) && server.writes == old(server.writes) && ledgers == state
  {
    server.reliable := reliable;
    ghost var start := server.world;
    ok, ledgers := Reconcile(hash, server, state, config);
    UndeclaredAfterRun(hash, start, server.world, config);
  }

  /**
   * Recovery from interruption. A run is cut off anywhere; one full run then reaches the declared state with
   * undeclared objects unchanged; each client then holds the declared secrets if and only if the ledger had not
   * verified them before the interruption, or was in step then; and the run after that, cut off or not, sends no write.
   */
  method InterruptedThenComplete(hash: Hash, server: Server, state: Ledgers, config: Config)
    returns (ok: bool, ledgers: Ledgers, quiet: bool)
    requires ValidConfig(config) && Sound(server.world) && Ready(server.world, config) && Reachable(config)
    requires !config.bootstrap
    modifies server
    ensures ok && quiet && Converged(hash, server.world, ledgers, config)
    ensures AllThere(old(server.world), server.world, config)
    ensures UndeclaredSame(old(server.world), server.world, config)
    ensures Injective(hash) ==> HeldAsKnown(hash, old(server.world), state, server.world, config)
    ensures Injective(hash) && ClientsInStep(hash, old(server.world.clients), state, config.clients) ==>
        SecretsInPlace(hash, server.world, config)
  {
    ghost var start := server.world;
    var finished;
    finished, ledgers := RunOnce(hash, server, server.reliable, state, config);
    ghost var interrupted, kept := server.world, ledgers;
    ok, ledgers := RunOnce(hash, server, true, ledgers, config);
    UndeclaredTwice(start, interrupted, server.world, config);
    GivenOverTwo(hash, start, state, interrupted, kept, server.world, ledgers, config);
    var writes := server.writes;
    finished, ledgers := RunOnce(hash, server, false, ledgers, config);
    quiet := server.writes == writes;
  }
}
