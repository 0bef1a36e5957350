/**
 * What a client, a filter or an action being as declared means, in terms of names, ids and paths alone, without the
 * adapter's own tests.
 */
module AutobrrMeaning {
  import opened AutobrrClients
  import opened AutobrrFilters
  import opened AutobrrGuard
  import opened AutobrrMatch
  import opened AutobrrPaths
  import opened AutobrrServer
  import opened JsonValues
  import opened Objects

  /** The one object of the name. */
  predicate OnlyNamed(objects: seq<Object>, name: string, i: nat) {
    && i < |objects| && At(Obj(objects[i]), ["name"]) == Ok(Str(name))
    && forall j | 0 <= j < |objects| && j != i :: At(Obj(objects[j]), ["name"]) != Ok(Str(name))
  }

  lemma NameAt(o: Object, name: string)
    ensures Satisfies(o, ByName(name)) <==> At(Obj(o), ["name"]) == Ok(Str(name))
  {
    NameMeans(o, name);
    assert ["name"][1..] == [];
  }

  lemma FoundIsOnly(objects: seq<Object>, name: string, i: nat)
    ensures Search(objects, ByName(name)) == One(i) <==> OnlyNamed(objects, name, i)
  {
    SearchMeans(objects, ByName(name));
    forall j | 0 <= j < |objects| {
      NameAt(objects[j], name);
    }
  }

  // ---------------------------------------------------------------- clients

  /** There is one client of the name, and the declared values that are no secrets are in place. */
  ghost predicate ClientThere(clients: seq<Object>, d: ClientDecl) {
    exists i: nat :: OnlyNamed(clients, d.name, i) && InPlace(clients[i], d.values)
  }

  lemma SettledIsThere(hash: Hash, clients: seq<Object>, ledgers: Ledgers, d: ClientDecl)
    requires ValidClient(d) && (ClientSettled(hash, clients, ledgers, d) || ClientBears(clients, d))
    ensures ClientThere(clients, d)
  {
    var i := Search(clients, ByName(d.name)).index;
    FoundIsOnly(clients, d.name, i);
    if ClientBears(clients, d) {
      HoldsInPlace(clients[i], d.values);
    } else {
      MatchInPlace(hash, LedgerOf(ledgers, Id(clients[i])), Redact(clients[i]), d.values);
      RedactedInPlace(clients[i], d.values);
    }
  }

  // ---------------------------------------------------------------- actions

  /** The one action of the name on the filter with the id. */
  predicate OnlyAction(actions: seq<Object>, name: string, id: Json, i: nat) {
    && i < |actions| && IsAction(actions[i], name, id)
    && forall j | 0 <= j < |actions| && j != i :: !IsAction(actions[j], name, id)
  }

  predicate IsAction(o: Object, name: string, id: Json) {
    At(Obj(o), ["name"]) == Ok(Str(name)) && At(Obj(o), ["filter_id"]) == Ok(id)
  }

  lemma ScopedAt(o: Object, name: string, id: Json)
    requires id != Null
    ensures Satisfies(o, Scoped(name, id)) <==> IsAction(o, name, id)
  {
    ScopedMeans(o, name, id);
    assert ["name"][1..] == [] && ["filter_id"][1..] == [];
  }

  lemma SearchMore(objects: seq<Object>, o: Object, pattern: Object)
    ensures Search(objects + [o], pattern) ==
        if !Satisfies(o, pattern) then Search(objects, pattern)
        else if Search(objects, pattern).Nothing? then One(|objects|)
        else Many
  {
    assert (objects + [o])[..|objects|] == objects;
  }

  /** The search finds the same object in both collections, or the same kind of nothing. */
  predicate FoundAlike(a: seq<Object>, b: seq<Object>, pattern: Object) {
    var found, other := Search(a, pattern), Search(b, pattern);
    && (found.Nothing? <==> other.Nothing?) && (found.One? <==> other.One?)
    && (found.One? ==> a[found.index] == b[other.index])
  }

  lemma AlikeStep(a: seq<Object>, b: seq<Object>, o: Object, pattern: Object)
    requires FoundAlike(a, b, pattern)
    ensures FoundAlike(a + [o], b + [o], pattern)
    ensures !Satisfies(o, pattern) ==> FoundAlike(a, b + [o], pattern)
  {
    SearchMore(a, o, pattern);
    SearchMore(b, o, pattern);
  }

  /** Searching among the actions of the filter is searching among all for the name and the filter's id. */
  lemma {:induction false} ScopedSearch(actions: seq<Object>, name: string, id: Json)
    ensures FoundAlike(ActionsOf(actions, id), actions, Scoped(name, id))
  {
    if actions != [] {
      var last := |actions| - 1;
      var own := ActionsOf(actions[..last], id);
      ScopedSearch(actions[..last], name, id);
      ScopedMeans(actions[last], name, id);
      AlikeStep(own, actions[..last], actions[last], Scoped(name, id));
      assert actions == actions[..last] + [actions[last]] && own + [] == own;
    }
  }

  /** There is one action of the name on the filter, with the declared values in place and the id of its client. */
  ghost predicate ActionThere(w: World, id: Json, a: ActionDecl) {
    exists i: nat ::
      && OnlyAction(w.actions, a.name, id, i) && InPlace(w.actions[i], a.values)
      && (a.client != "" ==> HasClient(w.clients, w.actions[i], a.client))
  }

  predicate HasClient(clients: seq<Object>, action: Object, name: string) {
    exists c | 0 <= c < |clients| ::
      && OnlyNamed(clients, name, c) && At(Obj(clients[c]), ["id"]).Ok?
      && (At(Obj(action), ["client_id"]) == At(Obj(clients[c]), ["id"])
          || PlainThere(At(Obj(action), ["client_id"]), At(Obj(clients[c]), ["id"]).value))
  }

  lemma KeptLeaf(small: Object, large: Object, path: seq<string>)
    requires path != [] && path[0] in small && path[0] in large && large[path[0]] == small[path[0]]
    ensures At(Obj(large), path) == At(Obj(small), path)
  {
  }

  /** What is in place for the full declaration is in place for a part of it. */
  lemma PartInPlace(o: Object, small: Object, large: Object)
    requires InPlace(o, large) && forall key | key in small :: key in large && large[key] == small[key]
    ensures InPlace(o, small)
  {
    forall path | PlainLeaf(small, path)
      ensures
        || At(Obj(o), path) == At(Obj(small), path)
        || PlainThere(At(Obj(o), path), At(Obj(small), path).value)
    {
      KeptLeaf(small, large, path);
      assert PlainLeaf(large, path);
    }
  }

  lemma MeetsInPlace(hash: Hash, o: Object, values: Object)
    requires Meets(hash, o, values)
    ensures InPlace(o, values)
  {
    if Holds(o, values) {
      HoldsInPlace(o, values);
    } else {
      MatchInPlace(hash, map[], o, values);
    }
  }

  lemma MetIsThere(hash: Hash, w: World, id: Json, a: ActionDecl)
    requires ValidAction(a) && Sound(w) && id != Null && ClientFound(w.clients, a)
    requires ActionMet(hash, w.clients, ActionsOf(w.actions, id), id, a)
    ensures ActionThere(w, id, a)
  {
    var declared := Declared(w.clients, id, a);
    ScopedSearch(w.actions, a.name, id);
    SearchMeans(w.actions, Scoped(a.name, id));
    forall j | 0 <= j < |w.actions| {
      ScopedAt(w.actions[j], a.name, id);
    }
    var i := Search(w.actions, Scoped(a.name, id)).index;
    MeetsInPlace(hash, w.actions[i], declared);
    DeclaredLabels(w.clients, id, a);
    PartInPlace(w.actions[i], a.values, declared);
    if a.client != "" {
      ClientInPlace(w, w.actions[i], declared, a);
    }
    assert OnlyAction(w.actions, a.name, id, i);
  }

  lemma ClientInPlace(w: World, o: Object, declared: Object, a: ActionDecl)
    requires ValidAction(a) && a.client != "" && ClientFound(w.clients, a) && Sound(w) && InPlace(o, declared)
    requires "client_id" in declared && declared["client_id"] == ClientId(w.clients, a.client)
    ensures HasClient(w.clients, o, a.client)
  {
    var c := Search(w.clients, ByName(a.client)).index;
    FoundIsOnly(w.clients, a.client, c);
    assert ["id"][1..] == [] && ["client_id"][1..] == [];
    assert At(Obj(w.clients[c]), ["id"]) == Ok(Id(w.clients[c]));
    assert At(Obj(declared), ["client_id"]) == Ok(Id(w.clients[c]));
    assert PlainLeaf(declared, ["client_id"]);
  }

  // ---------------------------------------------------------------- filters

  /** The filter lists the indexer of the name. */
  predicate HasIndexer(indexers: seq<Object>, f: Object, name: string) {
    && "indexers" in f && f["indexers"].Arr?
    && exists i, j | 0 <= i < |indexers| && 0 <= j < |f["indexers"].items| ::
      && OnlyNamed(indexers, name, i) && At(Obj(indexers[i]), ["id"]).Ok?
      && At(f["indexers"].items[j], ["id"]) == At(Obj(indexers[i]), ["id"])
  }

  /** The declared values are in place, every declared indexer is listed, and every declared action is there. */
  ghost predicate FilterFilled(w: World, d: FilterDecl, f: Object) {
    && InPlace(f, d.values - {"enabled"})
    && (forall i | 0 <= i < |d.indexers| :: HasIndexer(w.indexers, f, d.indexers[i]))
    && "id" in f && forall k | 0 <= k < |d.actions| :: ActionThere(w, f["id"], d.actions[k])
  }

  /** Without the key a filter is disabled. */
  predicate FilterEnabled(f: Object, enabled: bool) {
    if "enabled" in f then f["enabled"] == Bool(enabled) else !enabled
  }

  /** There is one filter of the name, filled and enabled as declared. */
  ghost predicate FilterThere(w: World, d: FilterDecl)
    requires ValidFilter(d)
  {
    exists i: nat ::
      && OnlyNamed(w.filters, d.name, i) && FilterFilled(w, d, w.filters[i])
      && FilterEnabled(w.filters[i], d.values["enabled"].b)
  }

  lemma SelectedListed(w: World, d: FilterDecl, f: Object, n: nat)
    requires ValidFilter(d) && n < |d.indexers| && IndexerFound(w.indexers, d.indexers[n])
    requires GoodIndexers(f) && Selected(w.indexers, d.indexers) <= IndexerIds(f)
    ensures HasIndexer(w.indexers, f, d.indexers[n])
  {
    var i := Search(w.indexers, ByName(d.indexers[n])).index;
    var id := IndexerId(w.indexers, d.indexers[n]);
    FoundIsOnly(w.indexers, d.indexers[n], i);
    assert id in Selected(w.indexers, d.indexers) && id in IndexerIds(f);
    var j :| 0 <= j < |f["indexers"].items| && Get(f["indexers"].items[j].fields, "id").n == id;
    assert ["id"][1..] == [];
    assert At(f["indexers"].items[j], ["id"]) == Ok(Num(id)) && At(Obj(w.indexers[i]), ["id"]) == Ok(Num(id));
  }

  lemma CompleteIsFilled(hash: Hash, w: World, d: FilterDecl, f: Object)
    requires ValidFilter(d) && Sound(w) && f in w.filters && Complete(hash, w, d, f)
    ensures FilterFilled(w, d, f)
  {
    MeetsInPlace(hash, f, Policy(d));
    forall i | 0 <= i < |d.indexers| {
      SelectedListed(w, d, f, i);
    }
    forall k | 0 <= k < |d.actions|
      ensures ActionThere(w, Id(f), d.actions[k])
    {
      MetIsThere(hash, w, Id(f), d.actions[k]);
    }
  }

  lemma DoneIsThere(hash: Hash, w: World, d: FilterDecl)
    requires ValidFilter(d) && Sound(w) && FilterDone(hash, w, d)
    ensures FilterThere(w, d)
  {
    var i := Search(w.filters, ByName(d.name)).index;
    FoundIsOnly(w.filters, d.name, i);
    CompleteIsFilled(hash, w, d, w.filters[i]);
  }
}
