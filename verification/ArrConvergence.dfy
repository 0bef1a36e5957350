/** A managed run over a plan whose results stay apart settles the server: repeating it sends no write. */
module ArrConvergence {
  import opened JsonValues
  import opened SharedMerge
  import opened Objects
  import opened ArrManager
  import opened ArrPlans

  // ---------------------------------------------------------------- what one resource does to the server

  ghost predicate Rewritten(before: seq<Object>, after: seq<Object>, pattern: Object, i: nat) {
    && Replaced(before, after, i)
    && Satisfies(before[i], pattern) && Satisfies(after[i], pattern)
    && "id" in before[i] && "id" in after[i] && after[i]["id"] == before[i]["id"]
  }

  ghost predicate Extended(before: seq<Object>, after: seq<Object>, pattern: Object, id: int) {
    && Appended(before, after)
    && Search(before, pattern).Nothing?
    && Satisfies(after[|before|], pattern)
    && "id" in after[|before|] && after[|before|]["id"] == Num(id)
  }

  /** The step leaves everything alone except one object of its endpoint that satisfies its match. */
  ghost predicate Effect(before: Server, after: Server, r: Resource) {
    && after.Valid() && before.nextId <= after.nextId
    && after.settings == before.settings && after.schemas == before.schemas
    && (forall e | e != r.endpoint :: after.Collection(e) == before.Collection(e))
    && var b, a := before.Collection(r.endpoint), after.Collection(r.endpoint);
       || a == b
       || (exists i | 0 <= i < |b| :: Rewritten(b, a, Pattern(r), i))
       || Extended(b, a, Pattern(r), before.nextId)
  }

  /** The resolved declaration has the declared keys, with the match values in place. */
  lemma ValuesKeepMatch(server: Server, r: Resource)
    requires ValuesOf(server, {}, r).Ok? && "_lookup" !in Declared(r)
    ensures
      var values := ValuesOf(server, {}, r).value;
      && values.Keys == Declared(r).Keys
      && (forall key | key in Pattern(r) :: key in values && values[key] == Pattern(r)[key])
  {
    var values := ValuesOf(server, {}, r).value;
    forall key | key in Pattern(r)
      ensures key in values && values[key] == Pattern(r)[key]
    {
      assert Declared(r)[key] == Str(r.match_[key]);
      assert Resolve(server, {}, Declared(r)[key]) == Ok(Declared(r)[key]);
    }
  }

  lemma TopLevelLookupFails(server: Server, planned: set<Lookup>, r: Resource)
    requires r.match_ != map[] && r.match_.Keys <= MATCH_KEYS && "_lookup" in Declared(r)
    ensures Resolve(server, planned, Obj(Declared(r))).Err?
  {
    var key :| key in r.match_;
    assert key in Declared(r) && key != "_lookup";
    assert Declared(r).Keys != {"_lookup"};
  }

  /** Declared keys that are no objects are taken over; undeclared keys stay. */
  lemma MergedShape(current: Object, values: Object, r: Resource)
    requires Merge(current, values).Ok?
    requires forall key | key in Pattern(r) :: key in values && values[key] == Pattern(r)[key]
    ensures Satisfies(Merge(current, values).value, Pattern(r))
    ensures "id" !in values && "id" in current ==>
        "id" in Merge(current, values).value && Merge(current, values).value["id"] == current["id"]
  {
    var merged := Merge(current, values).value;
    forall key | key in Pattern(r)
      ensures Get(merged, key) == Pattern(r)[key]
    {
      assert MergeAt(current, key, values[key]) == Ok(values[key]);
    }
  }

  lemma PutReplaces(server: Server, endpoint: string, i: nat, body: Object)
    requires server.Valid() && i < |server.Collection(endpoint)|
    requires "id" in body && body["id"] == server.Collection(endpoint)[i]["id"]
    ensures
      var after := server.Put(endpoint, server.Collection(endpoint)[i]["id"], body);
      && after.Valid()
      && after.Collection(endpoint) == server.Collection(endpoint)[i := body]
      && (forall e | e != endpoint :: after.Collection(e) == server.Collection(e))
  {
    var before := server.Collection(endpoint);
    var after := server.Put(endpoint, before[i]["id"], body);
    assert after.Collection(endpoint) == before[i := body] by {
      forall j | 0 <= j < |before| && j != i ensures Get(before[j], "id") != before[i]["id"] {
        if j < i {
          assert before[j]["id"] != before[i]["id"];
        } else {
          assert before[i]["id"] != before[j]["id"];
        }
      }
    }
    assert forall e | e != endpoint :: after.Collection(e) == server.Collection(e);
  }

  lemma PostAppends(server: Server, endpoint: string, body: Object)
    requires server.Valid()
    ensures
      var after := server.Post(endpoint, body);
      && after.Valid()
      && after.Collection(endpoint) == server.Collection(endpoint) + [body["id" := Num(server.nextId)]]
      && (forall e | e != endpoint :: after.Collection(e) == server.Collection(e))
  {
    var after := server.Post(endpoint, body);
    assert forall e | e != endpoint :: after.Collection(e) == server.Collection(e);
  }

  lemma UpdateEffect(server: Server, r: Resource, values: Object, i: nat)
    requires server.Valid() && ValuesOf(server, {}, r) == Ok(values) && "_lookup" !in Declared(r) && "id" !in r.values
    requires r.match_.Keys <= MATCH_KEYS
    requires Search(server.Collection(r.endpoint), Pattern(r)) == One(i)
    requires Merge(server.Collection(r.endpoint)[i], values).Ok?
    ensures
      var current := server.Collection(r.endpoint)[i];
      Effect(server, server.Put(r.endpoint, current["id"], Merge(current, values).value), r)
  {
    var before := server.Collection(r.endpoint);
    var desired := Merge(before[i], values).value;
    ValuesKeepMatch(server, r);
    SearchMeans(before, Pattern(r));
    MergedShape(before[i], values, r);
    PutReplaces(server, r.endpoint, i, desired);
    var after := server.Put(r.endpoint, before[i]["id"], desired).Collection(r.endpoint);
    assert Rewritten(before, after, Pattern(r), i);
  }

  /** A new object is stored under its own id, which is no match key. */
  function Stored(merged: Object, id: int): Object {
    (merged - {"id"})["id" := Num(id)]
  }

  lemma StoredSatisfies(merged: Object, id: int, r: Resource)
    requires r.match_.Keys <= MATCH_KEYS && Satisfies(merged, Pattern(r))
    ensures Satisfies(Stored(merged, id), Pattern(r))
  {
    assert "id" !in Pattern(r);
    assert forall key | key in Pattern(r) :: Get(Stored(merged, id), key) == Get(merged, key);
  }

  lemma CreateExtends(server: Server, r: Resource, merged: Object)
    requires server.Valid() && r.match_.Keys <= MATCH_KEYS
    requires Search(server.Collection(r.endpoint), Pattern(r)).Nothing?
    requires Satisfies(merged, Pattern(r))
    ensures
      var after := server.Post(r.endpoint, merged - {"id"}).Collection(r.endpoint);
      Extended(server.Collection(r.endpoint), after, Pattern(r), server.nextId)
  {
    var before := server.Collection(r.endpoint);
    PostAppends(server, r.endpoint, merged - {"id"});
    var after := server.Post(r.endpoint, merged - {"id"}).Collection(r.endpoint);
    StoredSatisfies(merged, server.nextId, r);
    assert after == before + [Stored(merged, server.nextId)];
    assert after[..|before|] == before;
  }

  lemma CreateEffect(server: Server, r: Resource, merged: Object)
    requires server.Valid() && r.match_.Keys <= MATCH_KEYS
    requires Search(server.Collection(r.endpoint), Pattern(r)).Nothing?
    requires Satisfies(merged, Pattern(r))
    ensures Effect(server, server.Post(r.endpoint, merged - {"id"}), r)
  {
    PostAppends(server, r.endpoint, merged - {"id"});
    CreateExtends(server, r, merged);
  }

  lemma NoTopLevelLookup(run: Run, config: Config, r: Resource)
    requires Apply(run, config, r, false).Ok?
    ensures "_lookup" !in Declared(r) && r.match_.Keys <= MATCH_KEYS
  {
    if "_lookup" in Declared(r) {
      TopLevelLookupFails(run.server, {}, r);
    }
  }

  lemma ApplyEffect(run: Run, config: Config, r: Resource)
    requires run.server.Valid() && "id" !in r.values && Apply(run, config, r, false).Ok?
    ensures Effect(run.server, Apply(run, config, r, false).value.server, r)
  {
    var server := run.server;
    if "_lookup" in Declared(r) {
      TopLevelLookupFails(server, {}, r);
    }
    var values := ValuesOf(server, {}, r).value;
    match Search(server.Collection(r.endpoint), Pattern(r))
    case One(i) =>
      if config.managed {
        UpdateEffect(server, r, values, i);
      }
    case Nothing =>
      var template := Template(server, r.endpoint, values).value;
      ValuesKeepMatch(server, r);
      MergedShape(template, values, r);
      CreateEffect(server, r, Merge(template, values).value);
  }

  // ---------------------------------------------------------------- what a step leaves alone

  /** No object that was written satisfies the pattern, before or after. */
  ghost predicate Undisturbed(before: seq<Object>, after: seq<Object>, pattern: Object) {
    forall i | 0 <= i < |after| && !(i < |before| && after[i] == before[i]) ::
      !Satisfies(after[i], pattern) && (i < |before| ==> !Satisfies(before[i], pattern))
  }

  /** A search finds what it found before when the step wrote nothing that concerns it. */
  lemma EffectOnSearch(before: Server, after: Server, r: Resource, endpoint: string, pattern: Object)
    requires Effect(before, after, r)
    requires endpoint == r.endpoint ==> Undisturbed(before.Collection(endpoint), after.Collection(endpoint), pattern)
    ensures SameSearch(before.Collection(endpoint), after.Collection(endpoint), pattern)
  {
    var b, a := before.Collection(endpoint), after.Collection(endpoint);
    if endpoint == r.endpoint && a != b {
      if i :| 0 <= i < |b| && Rewritten(b, a, Pattern(r), i) {
        SearchUndisturbed(b, a, i, pattern);
      } else {
        SearchUndisturbed(b, a, |b|, pattern);
      }
    }
  }

  /** A match that conflicts with that of the step is not disturbed by it. */
  lemma ConflictUndisturbed(before: Server, after: Server, r: Resource, pattern: Object)
    requires Effect(before, after, r) && Conflict(Pattern(r), pattern)
    ensures Undisturbed(before.Collection(r.endpoint), after.Collection(r.endpoint), pattern)
  {
    var b, a := before.Collection(r.endpoint), after.Collection(r.endpoint);
    var key :| key in Pattern(r) && key in pattern && Pattern(r)[key] != pattern[key];
    if a != b && Extended(b, a, Pattern(r), before.nextId) {
      assert forall i | 0 <= i < |b| :: a[i] == a[..|b|][i];
    }
  }

  /** A lookup that resolved keeps its answer. */
  lemma EffectOnLookup(before: Server, after: Server, r: Resource, lookup: Lookup)
    requires Effect(before, after, r) && Keyed(r) && ResolveLookup(before, {}, lookup).Ok?
    requires lookup.endpoint in LOOKUP_ENDPOINTS
    ensures ResolveLookup(after, {}, lookup) == ResolveLookup(before, {}, lookup)
  {
    var b, a := before.Collection(lookup.endpoint), after.Collection(lookup.endpoint);
    if lookup.endpoint == r.endpoint && a != b {
      var pattern: Object := map[LookupKey(lookup.endpoint) := lookup.name];
      assert Pattern(r).Keys == pattern.Keys;
      if Pattern(r)[LookupKey(r.endpoint)] == lookup.name {
        assert Pattern(r) == pattern;
        RewrittenAnswer(b, a, pattern, before.nextId);
      } else {
        assert Conflict(Pattern(r), pattern);
        ConflictUndisturbed(before, after, r, pattern);
        EffectOnSearch(before, after, r, lookup.endpoint, pattern);
      }
    }
  }

  /** An object that was found and rewritten is found again under its id. */
  lemma RewrittenAnswer(b: seq<Object>, a: seq<Object>, pattern: Object, id: int)
    requires (exists i | 0 <= i < |b| :: Rewritten(b, a, pattern, i)) || Extended(b, a, pattern, id)
    requires Search(b, pattern).One?
    ensures Search(a, pattern) == Search(b, pattern)
    ensures var i := Search(b, pattern).index; "id" in b[i] && "id" in a[i] && a[i]["id"] == b[i]["id"]
  {
    SearchMeans(b, pattern);
    SearchMeans(a, pattern);
    var i :| 0 <= i < |b| && Rewritten(b, a, pattern, i);
    assert Search(b, pattern) == One(i) && Search(a, pattern) == One(i);
  }

  lemma {:induction false} EffectOnResolve(before: Server, after: Server, r: Resource, value: Json)
    requires Effect(before, after, r) && Keyed(r) && Resolve(before, {}, value).Ok?
    ensures Resolve(after, {}, value) == Resolve(before, {}, value)
    decreases value
  {
    match value
    case Obj(fields) =>
      if "_lookup" in fields {
        EffectOnLookup(before, after, r, LookupOf(fields).value);
      } else {
        forall key | key in fields
          ensures Resolve(after, {}, fields[key]) == Resolve(before, {}, fields[key])
        {
          EffectOnResolve(before, after, r, fields[key]);
        }
        assert Resolve(after, {}, value).value.fields == Resolve(before, {}, value).value.fields;
      }
    case Arr(items) =>
      forall i | 0 <= i < |items|
        ensures Resolve(after, {}, items[i]) == Resolve(before, {}, items[i])
      {
        EffectOnResolve(before, after, r, items[i]);
      }
      assert Resolve(after, {}, value).value.items == Resolve(before, {}, value).value.items;
    case _ =>
  }

  /** So a declaration that resolved keeps its values. */
  lemma EffectOnValues(before: Server, after: Server, r: Resource, other: Resource)
    requires Effect(before, after, r) && Keyed(r) && ValuesOf(before, {}, other).Ok?
    ensures ValuesOf(after, {}, other) == ValuesOf(before, {}, other)
  {
    EffectOnResolve(before, after, r, Obj(Declared(other)));
  }

  // ---------------------------------------------------------------- settled resources

  /** The match finds this one object. */
  predicate Finds(server: Server, r: Resource, i: nat, current: Object) {
    && Search(server.Collection(r.endpoint), Pattern(r)) == One(i)
    && server.Collection(r.endpoint)[i] == current
  }

  /** The resource's lookups resolve to these values and its match finds this one object. */
  ghost predicate Pinned(server: Server, r: Resource, values: Object, i: nat, current: Object) {
    && ValuesOf(server, {}, r) == Ok(values)
    && Finds(server, r, i, current)
    && ("implementation" in values ==> Get(current, "implementation") == values["implementation"])
  }

  /** What the step merges into: the matched object, or the template of a new one. */
  function BaseOf(server: Server, r: Resource, values: Object): Result<Object> {
    match Search(server.Collection(r.endpoint), Pattern(r))
    case One(i) => Ok(server.Collection(r.endpoint)[i])
    case Nothing => Template(server, r.endpoint, values)
    case Many => Err
  }

  /** The merge of the step puts `fields` objects only into existing field lists. */
  predicate StableStep(server: Server, r: Resource) {
    ValuesOf(server, {}, r).Ok? ==>
      var values := ValuesOf(server, {}, r).value;
      BaseOf(server, r, values).Ok? ==> Stable(BaseOf(server, r, values).value, values)
  }

  /** A merge looks only at the declared keys of the current object. */
  lemma MergeLooksAtDeclared(a: Object, b: Object, values: Object)
    requires forall key | key in values :: (key in a <==> key in b) && (key in a ==> a[key] == b[key])
    ensures Merge(a, values).Ok? <==> Merge(b, values).Ok?
    ensures Merge(a, values) == Ok(a) ==> Merge(b, values) == Ok(b)
  {
    assert forall key | key in values :: MergeAt(a, key, values[key]) == MergeAt(b, key, values[key]);
    if Merge(a, values) == Ok(a) {
      MergeIs(b, values, b);
    }
  }

  /** After its step a resource is pinned to the object written for it, and a stable one has nothing left to write. */
  lemma ApplyPins(run: Run, config: Config, r: Resource) returns (values: Object, i: nat, current: Object)
    requires run.server.Valid() && Keyed(r) && config.managed && Apply(run, config, r, false).Ok?
    ensures Pinned(Apply(run, config, r, false).value.server, r, values, i, current)
    ensures StableStep(run.server, r) ==> Merge(current, values) == Ok(current)
    ensures !StableStep(run.server, r) ==> Merge(current, values).Err?
  {
    var base;
    var after := Apply(run, config, r, false).value.server;
    values, base := ResolvedWrites(run, config, r, after);
    i, current := WrittenObject(run.server, after, r, values, base);
    CarriedMerge(base, values, current);
    ImplementationStays(run.server, r, values, base, current);
  }

  /** What the step wrote, with its values, which resolve alike afterwards. */
  lemma ResolvedWrites(run: Run, config: Config, r: Resource, after: Server) returns (values: Object, base: Object)
    requires run.server.Valid() && Keyed(r) && config.managed && Apply(run, config, r, false).Ok?
    requires after == Apply(run, config, r, false).value.server
    ensures ValuesOf(run.server, {}, r) == Ok(values) == ValuesOf(after, {}, r)
    ensures BaseOf(run.server, r, values) == Ok(base)
    ensures Merge(base, values).Ok? && Written(run.server, after, r, Merge(base, values).value)
    ensures "id" !in values && r.match_.Keys <= MATCH_KEYS
    ensures forall key | key in Pattern(r) :: key in values && values[key] == Pattern(r)[key]
    ensures "implementation" in values && Search(run.server.Collection(r.endpoint), Pattern(r)).One? ==>
        Get(base, "implementation") == values["implementation"]
  {
    NoTopLevelLookup(run, config, r);
    values, base := ApplyWrites(run, config, r);
    ApplyEffect(run, config, r);
    EffectOnValues(run.server, after, r, r);
    ValuesKeepMatch(run.server, r);
  }

  lemma CarriedMerge(base: Object, values: Object, current: Object)
    requires Merge(base, values).Ok? && Carries(current, Merge(base, values).value, values)
    ensures Stable(base, values) ==> Merge(current, values) == Ok(current)
    ensures !Stable(base, values) ==> Merge(current, values).Err?
  {
    MergeTwice(base, values);
  }

  lemma ImplementationStays(server: Server, r: Resource, values: Object, base: Object, current: Object)
    requires BaseOf(server, r, values) == Ok(base) && Merge(base, values).Ok?
    requires "implementation" in values && Search(server.Collection(r.endpoint), Pattern(r)).One? ==>
        Get(base, "implementation") == values["implementation"]
    requires forall key | key != "id" :: Get(current, key) == Get(Merge(base, values).value, key)
    ensures "implementation" in values ==> Get(current, "implementation") == values["implementation"]
  {
    if "implementation" in values && Search(server.Collection(r.endpoint), Pattern(r)).Nothing? {
      ImplementationOfBase(server, r, values);
    }
    ImplementationKept(base, values, current, r);
  }

  /** The stored object answers a repeated merge as the merged one does. */
  ghost predicate Carries(current: Object, merged: Object, values: Object) {
    && (forall key | key != "id" :: Get(current, key) == Get(merged, key))
    && (Merge(merged, values) == Ok(merged) ==> Merge(current, values) == Ok(current))
    && (Merge(merged, values).Err? ==> Merge(current, values).Err?)
  }

  lemma UpdatedObject(server: Server, r: Resource, i: nat, merged: Object)
    requires server.Valid() && Search(server.Collection(r.endpoint), Pattern(r)) == One(i)
    requires Satisfies(merged, Pattern(r))
    requires "id" in merged && merged["id"] == server.Collection(r.endpoint)[i]["id"]
    ensures
      var after := server.Put(r.endpoint, merged["id"], merged).Collection(r.endpoint);
      Search(after, Pattern(r)) == One(i) && after[i] == merged
  {
    PutReplaces(server, r.endpoint, i, merged);
    SearchMeans(server.Collection(r.endpoint), Pattern(r));
    SearchMeans(server.Collection(r.endpoint)[i := merged], Pattern(r));
  }

  lemma CreatedObject(server: Server, r: Resource, merged: Object, values: Object)
    requires server.Valid() && Search(server.Collection(r.endpoint), Pattern(r)).Nothing?
    requires Satisfies(merged, Pattern(r)) && r.match_.Keys <= MATCH_KEYS && "id" !in values
    ensures
      var after := server.Post(r.endpoint, merged - {"id"}).Collection(r.endpoint);
      var i := |server.Collection(r.endpoint)|;
      Search(after, Pattern(r)) == One(i) && after[i] == Stored(merged, server.nextId)
    ensures Carries(Stored(merged, server.nextId), merged, values)
  {
    var current := Stored(merged, server.nextId);
    PostAppends(server, r.endpoint, merged - {"id"});
    StoredSatisfies(merged, server.nextId, r);
    SearchAppended(server.Collection(r.endpoint), current, Pattern(r));
    assert forall key | key in values ::
        (key in merged <==> key in current) && (key in merged ==> merged[key] == current[key]);
    MergeLooksAtDeclared(merged, current, values);
  }

  /** A step on a server: what it merges is either held already, put in place, or posted. */
  ghost predicate Written(server: Server, after: Server, r: Resource, merged: Object) {
    match Search(server.Collection(r.endpoint), Pattern(r))
    case One(i) =>
      var current := server.Collection(r.endpoint)[i];
      if merged == current then after == server else after == server.Put(r.endpoint, Get(current, "id"), merged)
    case Nothing => after == server.Post(r.endpoint, merged - {"id"})
    case Many => false
  }

  lemma ApplyWrites(run: Run, config: Config, r: Resource) returns (values: Object, base: Object)
    requires run.server.Valid() && "_lookup" !in Declared(r) && Apply(run, config, r, false).Ok?
    requires config.managed || Search(run.server.Collection(r.endpoint), Pattern(r)).Nothing?
    ensures ValuesOf(run.server, {}, r) == Ok(values) && BaseOf(run.server, r, values) == Ok(base)
    ensures Merge(base, values).Ok?
    ensures Written(run.server, Apply(run, config, r, false).value.server, r, Merge(base, values).value)
    ensures "implementation" in values && Search(run.server.Collection(r.endpoint), Pattern(r)).One? ==>
        Get(base, "implementation") == values["implementation"]
  {
    values := ValuesOf(run.server, {}, r).value;
    base := BaseOf(run.server, r, values).value;
  }

  /** The object that carries the merge after the step, alone in satisfying the match. */
  lemma WrittenObject(server: Server, after: Server, r: Resource, values: Object, base: Object) returns (i: nat,
        current: Object)
    requires server.Valid() && "id" !in values && r.match_.Keys <= MATCH_KEYS
    requires BaseOf(server, r, values) == Ok(base) && Merge(base, values).Ok?
    requires forall key | key in Pattern(r) :: key in values && values[key] == Pattern(r)[key]
    requires Written(server, after, r, Merge(base, values).value)
    ensures Search(after.Collection(r.endpoint), Pattern(r)) == One(i) && after.Collection(r.endpoint)[i] == current
    ensures Carries(current, Merge(base, values).value, values)
  {
    var merged := Merge(base, values).value;
    MergedShape(base, values, r);
    if Search(server.Collection(r.endpoint), Pattern(r)).One? {
      i, current := Search(server.Collection(r.endpoint), Pattern(r)).index, merged;
      UpdatedObject(server, r, i, merged);
    } else {
      i, current := |server.Collection(r.endpoint)|, Stored(merged, server.nextId);
      CreatedObject(server, r, merged, values);
    }
  }

  /** The step at work: the values it resolved, what it merged them into, and the place where it stored the result. */
  ghost predicate Wrote(before: Server, after: Server, r: Resource, values: Object, base: Object, t: nat) {
    var b, a := before.Collection(r.endpoint), after.Collection(r.endpoint);
    && ValuesOf(before, {}, r) == Ok(values)
    && Merge(base, values).Ok?
    && match Search(b, Pattern(r))
       case One(i) => t == i && base == b[t] && a == b[t := Merge(base, values).value]
       case Nothing =>
         && t == |b| && Template(before, r.endpoint, values) == Ok(base)
         && a == b + [Stored(Merge(base, values).value, before.nextId)]
       case Many => false
  }

  lemma WrittenIsWrote(before: Server, after: Server, r: Resource, values: Object, base: Object) returns (t: nat)
    requires before.Valid() && "id" !in values
    requires ValuesOf(before, {}, r) == Ok(values) && BaseOf(before, r, values) == Ok(base) && Merge(base, values).Ok?
    requires Written(before, after, r, Merge(base, values).value)
    ensures Wrote(before, after, r, values, base, t)
  {
    var merged := Merge(base, values).value;
    if Search(before.Collection(r.endpoint), Pattern(r)).One? {
      t := Search(before.Collection(r.endpoint), Pattern(r)).index;
      PutReplaces(before, r.endpoint, t, merged);
    } else {
      t := |before.Collection(r.endpoint)|;
      PostAppends(before, r.endpoint, merged - {"id"});
    }
  }

  lemma StepWrites(run: Run, config: Config, r: Resource, after: Server) returns (values: Object, base: Object)
    requires run.server.Valid() && "id" !in r.values && Apply(run, config, r, false).Ok?
    requires after == Apply(run, config, r, false).value.server
    requires config.managed || Search(run.server.Collection(r.endpoint), Pattern(r)).Nothing?
    ensures "_lookup" !in Declared(r) && "id" !in values
    ensures ValuesOf(run.server, {}, r) == Ok(values) && BaseOf(run.server, r, values) == Ok(base)
    ensures Merge(base, values).Ok? && Written(run.server, after, r, Merge(base, values).value)
  {
    NoTopLevelLookup(run, config, r);
    values, base := ApplyWrites(run, config, r);
    NoIdResolved(run.server, r, values);
  }

  lemma NoIdResolved(server: Server, r: Resource, values: Object)
    requires ValuesOf(server, {}, r) == Ok(values) && "_lookup" !in Declared(r)
    requires "id" !in r.values && r.match_.Keys <= MATCH_KEYS
    ensures "id" !in values
  {
    assert "id" !in Declared(r);
  }

  lemma StepWrote(run: Run, config: Config, r: Resource, next: Run) returns (values: Object, base: Object, t: nat)
    requires run.server.Valid() && "id" !in r.values && ResourceSteps(config, false)(run, r) == Ok(next)
    requires config.managed || Search(run.server.Collection(r.endpoint), Pattern(r)).Nothing?
    ensures Wrote(run.server, next.server, r, values, base, t) && "_lookup" !in Declared(r)
  {
    values, base := StepWrites(run, config, r, next.server);
    t := WrittenIsWrote(run.server, next.server, r, values, base);
  }

  /** Resolving makes no text and leaves text alone. */
  lemma ResolvedText(server: Server, r: Resource, values: Object, key: string)
    requires server.Valid() && ValuesOf(server, {}, r) == Ok(values) && "_lookup" !in Declared(r)
    ensures values.Keys == Declared(r).Keys
    ensures key in values ==> SameText(values[key], Declared(r)[key])
  {
    if key in values {
      assert Resolve(server, {}, Declared(r)[key]) == Ok(values[key]);
    }
  }

  /** The stored result has at the match keys what the declaration and the base say. */
  lemma WroteOutcome(before: Server, after: Server, r: Resource, values: Object, base: Object, t: nat)
    requires before.Valid() && "_lookup" !in Declared(r) && Wrote(before, after, r, values, base, t)
    ensures Outcome(after.Collection(r.endpoint)[t], base, r)
  {
    var o := after.Collection(r.endpoint)[t];
    assert forall key | key in MATCH_KEYS :: Get(o, key) == Get(Merge(base, values).value, key);
    forall key | key in MATCH_KEYS
      ensures SameText(Get(o, key), Ends(base, r, key))
    {
      ResolvedText(before, r, values, key);
      MergedText(base, values, key);
    }
  }

  lemma MergedText(base: Object, values: Object, key: string)
    requires Merge(base, values).Ok? && key in MATCH_KEYS
    ensures SameText(Get(Merge(base, values).value, key), if key in values then values[key] else Get(base, key))
  {
    if key in values {
      assert MergeAt(base, key, values[key]).Ok?;
    }
  }

  /** What the step merges into is a stored object that satisfies the match, or a template. */
  lemma WroteBase(before: Server, after: Server, r: Resource, values: Object, base: Object, t: nat)
    requires before.Valid() && "_lookup" !in Declared(r) && Wrote(before, after, r, values, base, t)
    ensures
      var b := before.Collection(r.endpoint);
      if t < |b| then base == b[t] && Satisfies(b[t], Pattern(r)) else IsTemplate(before, r, base)
  {
    SearchMeans(before.Collection(r.endpoint), Pattern(r));
    ResolvedText(before, r, values, "implementation");
    if Search(before.Collection(r.endpoint), Pattern(r)).Nothing? && "implementation" in values {
      var pattern: Object := map["implementation" := values["implementation"]];
      SearchMeans(before.Schemas(r.endpoint), pattern);
      assert "implementation" in pattern;
    }
  }

  lemma SearchAppended(before: seq<Object>, added: Object, pattern: Object)
    requires Search(before, pattern).Nothing? && Satisfies(added, pattern)
    ensures Search(before + [added], pattern) == One(|before|)
  {
    assert (before + [added])[..|before|] == before;
  }

  lemma ImplementationOfBase(server: Server, r: Resource, values: Object)
    requires BaseOf(server, r, values).Ok? && "implementation" in values
    requires Search(server.Collection(r.endpoint), Pattern(r)).Nothing?
    ensures Get(BaseOf(server, r, values).value, "implementation") == values["implementation"]
  {
    var pattern: Object := map["implementation" := values["implementation"]];
    SearchMeans(server.Schemas(r.endpoint), pattern);
    assert "implementation" in pattern;
  }

  lemma ImplementationKept(base: Object, values: Object, current: Object, r: Resource)
    requires Merge(base, values).Ok?
    requires "implementation" in values ==> Get(base, "implementation") == values["implementation"]
    requires forall key | key != "id" :: Get(current, key) == Get(Merge(base, values).value, key)
    ensures "implementation" in values ==> Get(current, "implementation") == values["implementation"]
  {
    if "implementation" in values {
      var value := values["implementation"];
      if value.Obj? {
        assert "implementation" in base && base["implementation"] == value;
        SelfMerge(value.fields);
        assert MergeAt(base, "implementation", value).Ok?;
      }
    }
  }

  // ---------------------------------------------------------------- whole runs

  /** Whether the step of resource n merged stably in a run over the resources. */
  predicate StableAtStep(run: Run, config: Config, rs: seq<Resource>, n: nat)
    requires n < |rs|
  {
    var before := RunResources(run, config, rs[..n], false);
    before.Ok? ==> StableStep(before.value.server, rs[n])
  }

  /** A run as the states it goes through. */
  ghost predicate Trace(runs: seq<Run>, config: Config, rs: seq<Resource>) {
    && |runs| == |rs| + 1 && runs[0].server.Valid()
    && (forall n | 0 <= n < |rs| :: "id" !in rs[n].values)
    && (forall n | 0 <= n < |rs| :: StepAt(runs, config, rs, n))
  }

  ghost predicate StepAt(runs: seq<Run>, config: Config, rs: seq<Resource>, n: nat)
    requires n < |rs| && |runs| == |rs| + 1
  {
    ResourceSteps(config, false)(runs[n], rs[n]) == Ok(runs[n + 1])
  }

  lemma RunTrace(run: Run, config: Config, rs: seq<Resource>) returns (runs: seq<Run>)
    requires run.server.Valid() && RunResources(run, config, rs, false).Ok?
    requires forall n | 0 <= n < |rs| :: "id" !in rs[n].values
    ensures Trace(runs, config, rs) && runs[0] == run && Ok(runs[|rs|]) == RunResources(run, config, rs, false)
    ensures forall n {:trigger runs[n]} | 0 <= n <= |rs| :: RunResources(run, config, rs[..n], false) == Ok(runs[n])
  {
    runs := FoldTrace(ResourceSteps(config, false), run, rs);
  }

  lemma StepEffect(runs: seq<Run>, config: Config, rs: seq<Resource>, n: nat)
    requires Trace(runs, config, rs) && n < |rs| && runs[n].server.Valid()
    ensures Effect(runs[n].server, runs[n + 1].server, rs[n])
  {
    assert StepAt(runs, config, rs, n);
    ApplyEffect(runs[n], config, rs[n]);
  }

  lemma {:induction false} ValidAt(runs: seq<Run>, config: Config, rs: seq<Resource>, m: nat)
    requires Trace(runs, config, rs) && m <= |rs|
    ensures runs[m].server.Valid()
  {
    if m > 0 {
      ValidAt(runs, config, rs, m - 1);
      StepEffect(runs, config, rs, m - 1);
    }
  }

  /** Each step of the trace has its effect. */
  lemma TraceEffect(runs: seq<Run>, config: Config, rs: seq<Resource>, m: nat)
    requires Trace(runs, config, rs) && 0 < m <= |rs|
    ensures runs[m - 1].server.Valid() && Effect(runs[m - 1].server, runs[m].server, rs[m - 1])
  {
    ValidAt(runs, config, rs, m - 1);
    StepEffect(runs, config, rs, m - 1);
  }

  function StableSteps(run: Run, config: Config, rs: seq<Resource>): (stable: seq<bool>)
    ensures |stable| == |rs| && forall n | 0 <= n < |rs| :: stable[n] == StableAtStep(run, config, rs, n)
  {
    seq(|rs|, n requires 0 <= n < |rs| => StableAtStep(run, config, rs, n))
  }

  lemma {:induction false} TraceSettings(runs: seq<Run>, config: Config, rs: seq<Resource>, m: nat)
    requires Trace(runs, config, rs) && m <= |rs|
    ensures runs[m].server.settings == runs[0].server.settings && runs[m].server.schemas == runs[0].server.schemas
  {
    if m > 0 {
      TraceSettings(runs, config, rs, m - 1);
      TraceEffect(runs, config, rs, m);
    }
  }

  lemma {:induction false} TraceSupported(runs: seq<Run>, config: Config, rs: seq<Resource>)
    requires Trace(runs, config, rs)
    ensures forall n | 0 <= n < |rs| :: Supported(config, rs[n])
  {
    forall n | 0 <= n < |rs|
      ensures Supported(config, rs[n])
    {
      assert StepAt(runs, config, rs, n);
    }
  }

  // ---------------------------------------------------------------- results stay apart

  /** The object satisfies no match of the plan, unless it is that of resource n. */
  ghost predicate Alone(rs: seq<Resource>, n: nat, o: Object)
    requires n < |rs|
  {
    forall k | 0 <= k < |rs| && k != n && rs[k].endpoint == rs[n].endpoint :: !Satisfies(o, Pattern(rs[k]))
  }

  /** The object is the result of one of the first m resources. */
  ghost predicate Moved(rs: seq<Resource>, m: nat, e: string, o: Object) {
    exists n | 0 <= n < m && n < |rs| && rs[n].endpoint == e :: Alone(rs, n, o)
  }

  /** After m resources every object is the one that was there at the start, or the result of one of them. */
  ghost predicate Originated(start: Server, server: Server, rs: seq<Resource>, m: nat) {
    forall e, i | 0 <= i < |server.Collection(e)| ::
      || (i < |start.Collection(e)| && server.Collection(e)[i] == start.Collection(e)[i])
      || Moved(rs, m, e, server.Collection(e)[i])
  }

  lemma ResultAlone(start: Server, managed: bool, rs: seq<Resource>, n: nat, base: Object, o: Object)
    requires n < |rs| && ResultsApart(start, managed, rs)
    requires forall k | 0 <= k < |rs| :: rs[k].match_.Keys <= MATCH_KEYS
    requires IsBase(start, managed, rs[n], base) && Outcome(o, base, rs[n])
    ensures Alone(rs, n, o)
  {
    forall k | 0 <= k < |rs| && k != n && rs[k].endpoint == rs[n].endpoint
      ensures !Satisfies(o, Pattern(rs[k]))
    {
      assert ResultApart(start, managed, rs[n], rs[k]);
      OutcomeMisses(o, base, rs[n], rs[k]);
    }
  }

  /** What resource m is merged into was there at the start, or is a template. */
  lemma BaseOriginates(start: Server, before: Server, managed: bool, rs: seq<Resource>, m: nat, base: Object, t: nat)
    requires m < |rs| && Originated(start, before, rs, m) && before.schemas == start.schemas
    requires managed || t == |before.Collection(rs[m].endpoint)|
    requires
      var b := before.Collection(rs[m].endpoint);
      if t < |b| then base == b[t] && Satisfies(b[t], Pattern(rs[m])) else IsTemplate(before, rs[m], base)
    ensures IsBase(start, managed, rs[m], base)
  {
    var e := rs[m].endpoint;
    if t < |before.Collection(e)| {
      assert !Moved(rs, m, e, before.Collection(e)[t]);
      assert start.Collection(e)[t] == base;
    } else {
      assert before.Schemas(e) == start.Schemas(e);
      assert IsTemplate(start, rs[m], base);
    }
  }

  /** The place that the step wrote to, if it wrote, and how its result came about. */
  lemma StepAlone(runs: seq<Run>, config: Config, rs: seq<Resource>, m: nat)
    returns (values: Object, base: Object, t: nat)
    requires Trace(runs, config, rs) && m < |rs| && ResultsApart(runs[0].server, config.managed, rs)
    requires Originated(runs[0].server, runs[m].server, rs, m)
    requires config.managed || Search(runs[m].server.Collection(rs[m].endpoint), Pattern(rs[m])).Nothing?
    ensures Wrote(runs[m].server, runs[m + 1].server, rs[m], values, base, t)
    ensures Alone(rs, m, runs[m + 1].server.Collection(rs[m].endpoint)[t])
  {
    ValidAt(runs, config, rs, m);
    TraceSettings(runs, config, rs, m);
    TraceSupported(runs, config, rs);
    assert StepAt(runs, config, rs, m);
    values, base, t := StepWrote(runs[m], config, rs[m], runs[m + 1]);
    WroteOutcome(runs[m].server, runs[m + 1].server, rs[m], values, base, t);
    WroteBase(runs[m].server, runs[m + 1].server, rs[m], values, base, t);
    BaseOriginates(runs[0].server, runs[m].server, config.managed, rs, m, base, t);
    ResultAlone(runs[0].server, config.managed, rs, m, base, runs[m + 1].server.Collection(rs[m].endpoint)[t]);
  }

  /** Every object that the step of resource m wrote is that resource's alone. */
  ghost predicate WritesAlone(before: Server, after: Server, rs: seq<Resource>, m: nat)
    requires m < |rs|
  {
    forall i | 0 <= i < |after.Collection(rs[m].endpoint)| ::
      || (i < |before.Collection(rs[m].endpoint)|
          && after.Collection(rs[m].endpoint)[i] == before.Collection(rs[m].endpoint)[i])
      || Alone(rs, m, after.Collection(rs[m].endpoint)[i])
  }

  lemma StepWritesAlone(runs: seq<Run>, config: Config, rs: seq<Resource>, m: nat)
    requires Trace(runs, config, rs) && m < |rs| && ResultsApart(runs[0].server, config.managed, rs)
    requires Originated(runs[0].server, runs[m].server, rs, m)
    ensures WritesAlone(runs[m].server, runs[m + 1].server, rs, m)
  {
    var found := Search(runs[m].server.Collection(rs[m].endpoint), Pattern(rs[m]));
    if config.managed || found.Nothing? {
      var values, base, t := StepAlone(runs, config, rs, m);
    } else {
      UnmanagedStep(runs, config, rs, m);
    }
  }

  /** Without being managed, a resource that has its object leaves the server alone. */
  lemma UnmanagedStep(runs: seq<Run>, config: Config, rs: seq<Resource>, m: nat)
    requires Trace(runs, config, rs) && m < |rs| && !config.managed
    requires !Search(runs[m].server.Collection(rs[m].endpoint), Pattern(rs[m])).Nothing?
    ensures runs[m + 1].server == runs[m].server
  {
    assert StepAt(runs, config, rs, m);
  }

  lemma OriginatedStep(runs: seq<Run>, config: Config, rs: seq<Resource>, m: nat)
    requires Trace(runs, config, rs) && m < |rs| && ResultsApart(runs[0].server, config.managed, rs)
    requires Originated(runs[0].server, runs[m].server, rs, m)
    ensures Originated(runs[0].server, runs[m + 1].server, rs, m + 1)
  {
    StepWritesAlone(runs, config, rs, m);
    TraceEffect(runs, config, rs, m + 1);
    OriginatedAfter(runs[0].server, runs[m].server, runs[m + 1].server, rs, m);
  }

  lemma TraceOriginates(runs: seq<Run>, config: Config, rs: seq<Resource>, m: nat)
    requires Trace(runs, config, rs) && m <= |rs| && ResultsApart(runs[0].server, config.managed, rs)
    ensures Originated(runs[0].server, runs[m].server, rs, m)
  {
    for k := 0 to m
      invariant Originated(runs[0].server, runs[k].server, rs, k)
    {
      OriginatedStep(runs, config, rs, k);
    }
  }

  lemma OriginatedAfter(start: Server, before: Server, after: Server, rs: seq<Resource>, m: nat)
    requires m < |rs| && Originated(start, before, rs, m) && WritesAlone(before, after, rs, m)
    requires forall e | e != rs[m].endpoint :: after.Collection(e) == before.Collection(e)
    ensures Originated(start, after, rs, m + 1)
  {
    forall e, i | 0 <= i < |after.Collection(e)|
      ensures
        || (i < |start.Collection(e)| && after.Collection(e)[i] == start.Collection(e)[i])
        || Moved(rs, m + 1, e, after.Collection(e)[i])
    {
      var o := after.Collection(e)[i];
      if i < |before.Collection(e)| && o == before.Collection(e)[i] {
        assert Moved(rs, m, e, o) ==> Moved(rs, m + 1, e, o);
      } else {
        assert Alone(rs, m, o);
      }
    }
  }

  // ---------------------------------------------------------------- answered resources

  /** The resource has an object of its own; repeating its step is quiet if it was stable and fails if it was not. */
  ghost predicate Answered(server: Server, config: Config, rs: seq<Resource>, n: nat, stable: bool)
    requires n < |rs|
  {
    Supported(config, rs[n]) && exists values, i, current ::
      && Pinned(server, rs[n], values, i, current)
      && Alone(rs, n, current)
      && (stable ==> Merge(current, values) == Ok(current))
      && (!stable ==> Merge(current, values).Err?)
  }

  lemma StepPins(runs: seq<Run>, config: Config, rs: seq<Resource>, n: nat)
    returns (values: Object, i: nat, current: Object)
    requires config.managed && Trace(runs, config, rs) && n < |rs| && Keyed(rs[n])
    ensures Supported(config, rs[n]) && Pinned(runs[n + 1].server, rs[n], values, i, current)
    ensures StableStep(runs[n].server, rs[n]) ==> Merge(current, values) == Ok(current)
    ensures !StableStep(runs[n].server, rs[n]) ==> Merge(current, values).Err?
  {
    ValidAt(runs, config, rs, n);
    assert StepAt(runs, config, rs, n);
    values, i, current := ApplyPins(runs[n], config, rs[n]);
  }

  /** The object to which the step pins its resource is that resource's alone. */
  lemma PinnedAlone(runs: seq<Run>, config: Config, rs: seq<Resource>, n: nat, i: nat)
    requires config.managed && Trace(runs, config, rs) && n < |rs| && ResultsApart(runs[0].server, config.managed, rs)
    requires Search(runs[n + 1].server.Collection(rs[n].endpoint), Pattern(rs[n])) == One(i)
    ensures Alone(rs, n, runs[n + 1].server.Collection(rs[n].endpoint)[i])
  {
    TraceOriginates(runs, config, rs, n);
    var values, base, t := StepAlone(runs, config, rs, n);
    WrotePlace(runs[n].server, runs[n + 1].server, rs[n], values, base, t, i);
  }

  lemma AnsweredBy(server: Server, config: Config, rs: seq<Resource>, n: nat, stable: bool, values: Object, i: nat,
        current: Object)
    requires n < |rs| && Supported(config, rs[n]) && Pinned(server, rs[n], values, i, current) && Alone(rs, n, current)
    requires stable ==> Merge(current, values) == Ok(current)
    requires !stable ==> Merge(current, values).Err?
    ensures Answered(server, config, rs, n, stable)
  {
  }

  /** The search finds the result where the step stored it. */
  lemma WrotePlace(before: Server, after: Server, r: Resource, values: Object, base: Object, t: nat, i: nat)
    requires Wrote(before, after, r, values, base, t)
    requires Search(after.Collection(r.endpoint), Pattern(r)) == One(i)
    ensures i == t
  {
    FoundSatisfies(after.Collection(r.endpoint), Pattern(r), i);
    if i < |before.Collection(r.endpoint)| && Satisfies(before.Collection(r.endpoint)[i], Pattern(r)) {
      FoundAt(before.Collection(r.endpoint), Pattern(r), i);
    }
  }

  /** A step of another resource neither touches the object of a pinned one nor writes another for it. */
  lemma AloneUndisturbed(before: Server, after: Server, rs: seq<Resource>, k: nat, n: nat, i: nat, current: Object)
    requires k < |rs| && n < |rs| && k != n && rs[k].endpoint == rs[n].endpoint
    requires Effect(before, after, rs[k]) && WritesAlone(before, after, rs, k)
    requires Search(before.Collection(rs[n].endpoint), Pattern(rs[n])) == One(i)
    requires before.Collection(rs[n].endpoint)[i] == current && Alone(rs, n, current)
    ensures Undisturbed(before.Collection(rs[n].endpoint), after.Collection(rs[n].endpoint), Pattern(rs[n]))
  {
    var b, a := before.Collection(rs[n].endpoint), after.Collection(rs[n].endpoint);
    SearchMeans(b, Pattern(rs[n]));
    forall j | 0 <= j < |a| && !(j < |b| && a[j] == b[j])
      ensures !Satisfies(a[j], Pattern(rs[n])) && (j < |b| ==> !Satisfies(b[j], Pattern(rs[n])))
    {
      assert Alone(rs, k, a[j]);
      ChangedWasMatched(before, after, rs[k], j);
    }
  }

  lemma ChangedWasMatched(before: Server, after: Server, r: Resource, j: nat)
    requires Effect(before, after, r) && j < |after.Collection(r.endpoint)|
    ensures
      var b, a := before.Collection(r.endpoint), after.Collection(r.endpoint);
      j < |b| && a[j] != b[j] ==> Satisfies(b[j], Pattern(r))
  {
    var b, a := before.Collection(r.endpoint), after.Collection(r.endpoint);
    if j < |b| && Extended(b, a, Pattern(r), before.nextId) {
      assert a[j] == a[..|b|][j];
    }
  }

  /** The step writes nothing that satisfies another resource's match. */
  ghost predicate ApartAt(runs: seq<Run>, rs: seq<Resource>, m: nat)
    requires m < |rs| && |runs| == |rs| + 1
  {
    && Effect(runs[m].server, runs[m + 1].server, rs[m])
    && WritesAlone(runs[m].server, runs[m + 1].server, rs, m)
  }

  lemma StepApart(runs: seq<Run>, config: Config, rs: seq<Resource>, m: nat)
    requires Trace(runs, config, rs) && m < |rs| && ResultsApart(runs[0].server, config.managed, rs)
    ensures ApartAt(runs, rs, m)
  {
    TraceEffect(runs, config, rs, m + 1);
    TraceOriginates(runs, config, rs, m);
    StepWritesAlone(runs, config, rs, m);
  }

  lemma FindsAcross(before: Server, after: Server, rs: seq<Resource>, k: nat, n: nat, i: nat, current: Object)
    requires k < |rs| && n < |rs| && k != n && Effect(before, after, rs[k]) && WritesAlone(before, after, rs, k)
    requires Finds(before, rs[n], i, current) && Alone(rs, n, current)
    ensures Finds(after, rs[n], i, current)
  {
    if rs[k].endpoint == rs[n].endpoint {
      AloneUndisturbed(before, after, rs, k, n, i, current);
    }
    EffectOnSearch(before, after, rs[k], rs[n].endpoint, Pattern(rs[n]));
  }

  /** A match that finds an object of its own finds it to the end of the run. */
  lemma FindsOn(runs: seq<Run>, rs: seq<Resource>, n: nat, i: nat, current: Object)
    requires n < |rs| && |runs| == |rs| + 1 && Alone(rs, n, current)
    requires forall m | n < m < |rs| :: ApartAt(runs, rs, m)
    requires Finds(runs[n + 1].server, rs[n], i, current)
    ensures Finds(runs[|rs|].server, rs[n], i, current)
  {
    for m := n + 1 to |rs|
      invariant Finds(runs[m].server, rs[n], i, current)
    {
      assert ApartAt(runs, rs, m);
      FindsAcross(runs[m].server, runs[m + 1].server, rs, m, n, i, current);
    }
  }

  lemma ValuesStep(runs: seq<Run>, config: Config, rs: seq<Resource>, m: nat, r: Resource)
    requires Trace(runs, config, rs) && m < |rs| && Keyed(rs[m])
    ensures ValuesOf(runs[m].server, {}, r).Ok? ==>
        ValuesOf(runs[m + 1].server, {}, r) == ValuesOf(runs[m].server, {}, r)
  {
    TraceEffect(runs, config, rs, m + 1);
    if ValuesOf(runs[m].server, {}, r).Ok? {
      EffectOnValues(runs[m].server, runs[m + 1].server, rs[m], r);
    }
  }

  /** What a declaration resolved to it resolves to from then on. */
  lemma {:induction false} ValuesStay(runs: seq<Run>, config: Config, rs: seq<Resource>, m: nat, n: nat, r: Resource)
    requires Trace(runs, config, rs) && n <= m <= |rs| && forall k | 0 <= k < |rs| :: Keyed(rs[k])
    requires ValuesOf(runs[n].server, {}, r).Ok?
    ensures ValuesOf(runs[m].server, {}, r) == ValuesOf(runs[n].server, {}, r)
    decreases m
  {
    if n < m {
      ValuesStay(runs, config, rs, m - 1, n, r);
      ValuesStep(runs, config, rs, m - 1, r);
    }
  }

  lemma FindsToTheEnd(runs: seq<Run>, config: Config, rs: seq<Resource>, n: nat, i: nat, current: Object)
    requires Trace(runs, config, rs) && n < |rs|
    requires ResultsApart(runs[0].server, config.managed, rs) && Alone(rs, n, current)
    requires Finds(runs[n + 1].server, rs[n], i, current)
    ensures Finds(runs[|rs|].server, rs[n], i, current)
  {
    forall m | n < m < |rs|
      ensures ApartAt(runs, rs, m)
    {
      StepApart(runs, config, rs, m);
    }
    FindsOn(runs, rs, n, i, current);
  }

  /** A resource that is pinned to an object of its own stays pinned to it to the end of the run. */
  lemma PinnedToTheEnd(runs: seq<Run>, config: Config, rs: seq<Resource>, n: nat, values: Object, i: nat,
        current: Object)
    requires Trace(runs, config, rs) && n < |rs| && forall k | 0 <= k < |rs| :: Keyed(rs[k])
    requires ResultsApart(runs[0].server, config.managed, rs) && Alone(rs, n, current)
    requires Pinned(runs[n + 1].server, rs[n], values, i, current)
    ensures Pinned(runs[|rs|].server, rs[n], values, i, current)
  {
    FindsToTheEnd(runs, config, rs, n, i, current);
    ValuesStay(runs, config, rs, |rs|, n + 1, rs[n]);
  }

  lemma AnsweredAtTheEnd(runs: seq<Run>, config: Config, rs: seq<Resource>, n: nat)
    requires config.managed && Trace(runs, config, rs) && n < |rs| && forall k | 0 <= k < |rs| :: Keyed(rs[k])
    requires ResultsApart(runs[0].server, config.managed, rs)
    ensures Answered(runs[|rs|].server, config, rs, n, StableStep(runs[n].server, rs[n]))
  {
    var values, i, current := StepPins(runs, config, rs, n);
    PinnedAlone(runs, config, rs, n, i);
    PinnedToTheEnd(runs, config, rs, n, values, i, current);
    AnsweredBy(runs[|rs|].server, config, rs, n, StableStep(runs[n].server, rs[n]), values, i, current);
  }

  /** After a managed run every resource is answered. */
  lemma RunAnswers(run: Run, config: Config, rs: seq<Resource>)
    requires config.managed && run.server.Valid() && RunResources(run, config, rs, false).Ok?
    requires (forall i | 0 <= i < |rs| :: Keyed(rs[i])) && ResultsApart(run.server, config.managed, rs)
    ensures
      var after := RunResources(run, config, rs, false).value.server;
      && after.Valid() && after.settings == run.server.settings
      && forall n | 0 <= n < |rs| :: Answered(after, config, rs, n, StableSteps(run, config, rs)[n])
  {
    var runs := RunTrace(run, config, rs);
    ValidAt(runs, config, rs, |rs|);
    TraceSettings(runs, config, rs, |rs|);
    forall n | 0 <= n < |rs|
      ensures Answered(runs[|rs|].server, config, rs, n, StableSteps(run, config, rs)[n])
    {
      assert RunResources(run, config, rs[..n], false) == Ok(runs[n]);
      AnsweredAtTheEnd(runs, config, rs, n);
    }
  }

  function Quiet(server: Server, n: nat): Run {
    Run(server, Counts(0, 0, n), {}, {}, 0)
  }

  /** The step counts the resource as unchanged and does nothing else. */
  ghost predicate QuietStep(server: Server, config: Config, r: Resource) {
    forall k: nat :: Apply(Quiet(server, k), config, r, false) == Ok(Quiet(server, k + 1))
  }

  ghost predicate FailingStep(server: Server, config: Config, r: Resource) {
    forall k: nat :: Apply(Quiet(server, k), config, r, false).Err?
  }

  /** A settled resource calls for no change, or fails where its merge fails. */
  lemma PinnedDecides(server: Server, config: Config, r: Resource, values: Object, i: nat, current: Object)
    requires config.managed && Pinned(server, r, values, i, current)
    ensures Merge(current, values) == Ok(current) ==> Decide(server, config, r, values) == Ok(Leave)
    ensures Merge(current, values).Err? ==> Decide(server, config, r, values).Err?
  {
  }

  lemma NothingPlanned(server: Server, r: Resource)
    ensures PlannedLookups(server, {}, r) == {}
  {
  }

  lemma LeavingStep(server: Server, config: Config, r: Resource, values: Object, k: nat)
    requires Supported(config, r) && ValuesOf(server, {}, r) == Ok(values)
    ensures Decide(server, config, r, values) == Ok(Leave) ==>
        Apply(Quiet(server, k), config, r, false) == Ok(Quiet(server, k + 1))
    ensures Decide(server, config, r, values).Err? ==> Apply(Quiet(server, k), config, r, false).Err?
  {
    NothingPlanned(server, r);
    assert Quiet(server, k).dependencies + {} == {};
    if Decide(server, config, r, values) == Ok(Leave) {
      assert Record(Quiet(server, k), r, Leave, false) == Quiet(server, k + 1);
    }
  }

  /** Repeating an answered step. */
  lemma AnsweredStep(server: Server, config: Config, rs: seq<Resource>, n: nat, stable: bool, k: nat)
    requires config.managed && n < |rs| && Answered(server, config, rs, n, stable)
    ensures stable ==> Apply(Quiet(server, k), config, rs[n], false) == Ok(Quiet(server, k + 1))
    ensures !stable ==> Apply(Quiet(server, k), config, rs[n], false).Err?
  {
    var values, i, current :| Pinned(server, rs[n], values, i, current) && Alone(rs, n, current)
      && (stable ==> Merge(current, values) == Ok(current)) && (!stable ==> Merge(current, values).Err?);
    PinnedDecides(server, config, rs[n], values, i, current);
    LeavingStep(server, config, rs[n], values, k);
  }

  lemma AnsweredSteps(server: Server, config: Config, rs: seq<Resource>, n: nat, stable: bool)
    requires config.managed && n < |rs| && Answered(server, config, rs, n, stable)
    ensures if stable then QuietStep(server, config, rs[n]) else FailingStep(server, config, rs[n])
  {
    forall k: nat
      ensures stable ==> Apply(Quiet(server, k), config, rs[n], false) == Ok(Quiet(server, k + 1))
      ensures !stable ==> Apply(Quiet(server, k), config, rs[n], false).Err?
    {
      AnsweredStep(server, config, rs, n, stable, k);
    }
  }

  lemma {:induction false} QuietResources(server: Server, config: Config, rs: seq<Resource>, m: nat)
    requires forall n | 0 <= n < |rs| :: QuietStep(server, config, rs[n])
    ensures RunResources(Quiet(server, m), config, rs, false) == Ok(Quiet(server, m + |rs|))
  {
    if rs != [] {
      var last := |rs| - 1;
      QuietResources(server, config, rs[..last], m);
      assert QuietStep(server, config, rs[last]);
    }
  }

  lemma {:induction false} FailingResource(server: Server, config: Config, rs: seq<Resource>, m: nat, n: nat)
    requires n < |rs| && forall i | 0 <= i < n :: QuietStep(server, config, rs[i])
    requires FailingStep(server, config, rs[n])
    ensures RunResources(Quiet(server, m), config, rs, false).Err?
  {
    QuietResources(server, config, rs[..n], m);
    assert rs[..n + 1][..n] == rs[..n];
    assert RunResources(Quiet(server, m), config, rs[..n + 1], false).Err?;
    FoldFails(ResourceSteps(config, false), Quiet(server, m), rs, n + 1);
  }

  /** The settings section already holds its declaration. */
  predicate Held(server: Server, p: Policy) {
    p.declared != map[] ==>
      && p.endpoint in server.settings
      && p.declared.Keys <= server.settings[p.endpoint].Keys
      && Merge(server.settings[p.endpoint], p.declared) == Ok(server.settings[p.endpoint])
  }

  lemma {:induction false} PoliciesHeld(run: Run, config: Config, ps: seq<Policy>)
    requires config.managed && RunPolicies(run, config, ps, false).Ok?
    requires forall i, key | 0 <= i < |ps| && key in ps[i].declared :: !ps[i].declared[key].Obj?
    requires forall i, j | 0 <= i < j < |ps| :: ps[i].endpoint != ps[j].endpoint
    ensures
      var after := RunPolicies(run, config, ps, false).value.server;
      && after.collections == run.server.collections && after.schemas == run.server.schemas
      && after.nextId == run.server.nextId
      && forall n | 0 <= n < |ps| :: Held(after, ps[n])
  {
    if ps != [] {
      var last := |ps| - 1;
      PoliciesHeld(run, config, ps[..last]);
      var before := RunPolicies(run, config, ps[..last], false).value.server;
      assert forall n | 0 <= n < last :: Held(before, ps[..last][n]);
      if ps[last].declared != map[] {
        var current := before.settings[ps[last].endpoint];
        var merged := Merge(current, ps[last].declared).value;
        MergeTwice(current, ps[last].declared);
        assert Stable(current, ps[last].declared);
        assert ps[last].declared.Keys <= merged.Keys;
      }
    }
  }

  lemma {:induction false} QuietPolicies(server: Server, config: Config, ps: seq<Policy>)
    requires config.managed && forall n | 0 <= n < |ps| :: Held(server, ps[n])
    ensures exists m: nat :: RunPolicies(Start(server), config, ps, false) == Ok(Quiet(server, m))
  {
    if ps != [] {
      var last := |ps| - 1;
      QuietPolicies(server, config, ps[..last]);
      var m: nat :| RunPolicies(Start(server), config, ps[..last], false) == Ok(Quiet(server, m));
      assert Held(server, ps[last]);
      assert ApplyPolicy(Quiet(server, m), config, ps[last], false) ==
        Ok(if ps[last].declared == map[] then Quiet(server, m) else Quiet(server, m + 1));
    } else {
      assert RunPolicies(Start(server), config, ps, false) == Ok(Quiet(server, 0));
    }
  }

  /** In every step of the run, `fields` objects met the field lists they assign into. */
  ghost predicate StableRun(server: Server, config: Config) {
    var settled := RunPolicies(Start(server), config, config.policies, false);
    settled.Ok? ==> forall n | 0 <= n < |config.resources| :: StableAtStep(settled.value, config, config.resources, n)
  }

  /** After the settings sections the server holds the same objects, and the sections hold their declarations. */
  lemma SettledPolicies(server: Server, config: Config)
    requires config.managed && Orderly(config) && server.Valid()
    requires ResultsApart(server, config.managed, config.resources)
    requires RunPolicies(Start(server), config, config.policies, false).Ok?
    ensures
      var settled := RunPolicies(Start(server), config, config.policies, false).value.server;
      && settled.Valid() && ResultsApart(settled, config.managed, config.resources)
      && forall n | 0 <= n < |config.policies| :: Held(settled, config.policies[n])
  {
    var settled := RunPolicies(Start(server), config, config.policies, false).value.server;
    PoliciesHeld(Start(server), config, config.policies);
    assert settled.Valid() by {
      assert forall e :: settled.Collection(e) == server.Collection(e);
    }
    SettingsDoNotMatter(server, settled, config.managed, config.resources);
  }

  /**
   * When no resource's result satisfies another's match, a second managed run over a server that stores what
   * it is sent writes nothing and finds everything unchanged exactly when every merge of the first run was
   * stable; otherwise it fails.
   */
  lemma SecondRunIsQuiet(server: Server, config: Config)
    requires config.managed && Orderly(config) && ResultsApart(server, config.managed, config.resources)
    requires server.Valid() && RunAll(server, config, false).Ok?
    ensures
      var after := RunAll(server, config, false).value.server;
      && (StableRun(server, config) ==> exists m: nat :: RunAll(after, config, false) == Ok(Quiet(after, m)))
      && (!StableRun(server, config) ==> RunAll(after, config, false).Err?)
  {
    var settled := RunPolicies(Start(server), config, config.policies, false).value;
    var after := RunAll(server, config, false).value.server;
    SettledPolicies(server, config);
    RunAnswers(settled, config, config.resources);
    QuietPolicies(after, config, config.policies);
    var m: nat :| RunPolicies(Start(after), config, config.policies, false) == Ok(Quiet(after, m));
    var rs := config.resources;
    var stable := StableSteps(settled, config, rs);
    forall n | 0 <= n < |rs|
      ensures if stable[n] then QuietStep(after, config, rs[n]) else FailingStep(after, config, rs[n])
    {
      AnsweredSteps(after, config, rs, n, stable[n]);
    }
    RepeatedResources(after, config, rs, stable, m);
    assert StableRun(server, config) <==> forall n | 0 <= n < |rs| :: stable[n];
    assert RunAll(after, config, false) == RunResources(Quiet(after, m), config, rs, false);
  }

  lemma RepeatedResources(server: Server, config: Config, rs: seq<Resource>, stable: seq<bool>, m: nat)
    requires |stable| == |rs|
    requires forall n | 0 <= n < |rs| ::
        if stable[n] then QuietStep(server, config, rs[n]) else FailingStep(server, config, rs[n])
    ensures
      if forall n | 0 <= n < |rs| :: stable[n]
      then RunResources(Quiet(server, m), config, rs, false) == Ok(Quiet(server, m + |rs|))
      else RunResources(Quiet(server, m), config, rs, false).Err?
  {
    if n :| 0 <= n < |stable| && !stable[n] {
      var first := FirstFalse(stable, n);
      FailingResource(server, config, rs, m, first);
    } else {
      QuietResources(server, config, rs, m);
    }
  }

  lemma FirstFalse(flags: seq<bool>, n: nat) returns (first: nat)
    requires n < |flags| && !flags[n]
    ensures first <= n && !flags[first] && forall i | 0 <= i < first :: flags[i]
  {
    first := n;
    if i :| 0 <= i < n && !flags[i] {
      first := FirstFalse(flags, i);
    }
  }

  lemma {:induction false} SelfStableMergesStably(current: Object, values: Object)
    requires SelfStable(values)
    ensures Stable(current, values)
    decreases Obj(values)
  {
    forall key | key in values && values[key].Obj? && key != "fields" && key in current && current[key].Obj?
      ensures Stable(current[key].fields, values[key].fields)
    {
      SelfStableMergesStably(current[key].fields, values[key].fields);
    }
  }

  /** Resolving lookups puts numbers where objects stood and adds no `fields` object. */
  lemma {:induction false} ResolvedSelfStable(server: Server, value: Json)
    requires server.Valid() && value.Obj? && Resolve(server, {}, value).Ok?
    requires SelfStable(value.fields)
    ensures
      var resolved := Resolve(server, {}, value).value;
      if "_lookup" in value.fields then resolved.Num? else resolved.Obj? && SelfStable(resolved.fields)
    decreases value
  {
    if "_lookup" !in value.fields {
      forall key | key in value.fields && value.fields[key].Obj?
        ensures var resolved := Resolve(server, {}, value.fields[key]).value;
          resolved.Obj? ==> (key == "fields" ==> resolved.fields == map[]) && SelfStable(resolved.fields)
      {
        ResolvedSelfStable(server, value.fields[key]);
      }
    }
  }

  /** A declaration whose `fields` object, if any, stands at the top level. */
  predicate TopLevelFields(r: Resource) {
    forall key | key in Declared(r) && key != "fields" && Declared(r)[key].Obj? :: SelfStable(Declared(r)[key].fields)
  }

  lemma StableByShape(server: Server, r: Resource)
    requires server.Valid() && TopLevelFields(r)
    ensures StableStep(server, r)
  {
    if ValuesOf(server, {}, r).Ok? && "_lookup" !in Declared(r) {
      var values := ValuesOf(server, {}, r).value;
      forall base: Object, key | key in values && values[key].Obj? && key != "fields"
        ensures SelfStable(values[key].fields)
        ensures key in base && base[key].Obj? ==> Stable(base[key].fields, values[key].fields)
      {
        var declared := Declared(r)[key];
        assert values[key] == Resolve(server, {}, declared).value;
        assert declared.Obj?;
        ResolvedSelfStable(server, declared);
        if key in base && base[key].Obj? {
          SelfStableMergesStably(base[key].fields, values[key].fields);
        }
      }
    }
  }

  /** Plans with `fields` objects at the top level only, where providers keep theirs, converge in one run. */
  lemma TopLevelFieldsConverge(server: Server, config: Config)
    requires config.managed && Orderly(config) && ResultsApart(server, config.managed, config.resources)
    requires server.Valid() && RunAll(server, config, false).Ok?
    requires forall n | 0 <= n < |config.resources| :: TopLevelFields(config.resources[n])
    ensures
      var after := RunAll(server, config, false).value.server;
      exists m: nat :: RunAll(after, config, false) == Ok(Quiet(after, m))
  {
    var settled := RunPolicies(Start(server), config, config.policies, false).value;
    SettledPolicies(server, config);
    forall n | 0 <= n < |config.resources|
      ensures StableAtStep(settled, config, config.resources, n)
    {
      StableAtByShape(settled, config, config.resources, n);
    }
    SecondRunIsQuiet(server, config);
  }

  lemma StableAtByShape(run: Run, config: Config, rs: seq<Resource>, n: nat)
    requires run.server.Valid() && n < |rs| && TopLevelFields(rs[n])
    requires forall i | 0 <= i < |rs| :: Keyed(rs[i])
    ensures StableAtStep(run, config, rs, n)
  {
    if RunResources(run, config, rs[..n], false).Ok? {
      var runs := RunTrace(run, config, rs[..n]);
      ValidAt(runs, config, rs[..n], n);
      StableByShape(runs[n].server, rs[n]);
    }
  }
}
