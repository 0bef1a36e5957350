/**
 * A dry run predicts the real run: the same outcome and counts, no write, and as planned
 * dependencies exactly the lookups that the real run answers with objects it created itself.
 */
module ArrDryRun {
  import opened JsonValues
  import opened SharedMerge
  import opened Objects
  import opened ArrManager
  import opened ArrPlans
  import opened ArrConvergence
  import opened ArrFrames

  // ---------------------------------------------------------------- marks at the places of lookups

  /** What stands in for an object of the plan: the placeholder of a dry run, or an id not assigned before. */
  datatype Mark = Planned | Assigned(from: int)

  predicate Bears(value: Json, mark: Mark) {
    match mark
    case Planned => value.Obj? && "_plannedLookup" in value.fields
    case Assigned(from) => value.Num? && value.n >= from
  }

  /** The current value bears the mark somewhere the declaration has a lookup; declared fields are found by name. */
  predicate Holds(current: Json, declared: Json, mark: Mark)
    decreases declared, 0
  {
    match declared
    case Obj(fields) =>
      if "_lookup" in fields then Bears(current, mark)
      else current.Obj? && exists key | key in fields && key in current.fields ::
        || Holds(current.fields[key], fields[key], mark)
        || (IsFieldsCase(key, fields[key]) && current.fields[key].Arr? &&
            exists name, i | name in fields[key].fields && 0 <= i < |current.fields[key].items| ::
              FieldHolds(current.fields[key].items[i], name, fields[key].fields[name], mark))
    case Arr(items) =>
      current.Arr? && exists i | 0 <= i < |items| && i < |current.items| :: Holds(current.items[i], items[i], mark)
    case _ => false
  }

  predicate FieldHolds(item: Json, name: string, declared: Json, mark: Mark)
    decreases declared, 1
  {
    item.Obj? && NameOf(item) == Str(name) && "value" in item.fields && Holds(item.fields["value"], declared, mark)
  }

  /** A resolved value bears, at the place of a lookup, what the lookup was answered with. */
  lemma {:induction false} ResolvedHolds(server: Server, planned: set<Lookup>, value: Json, lookup: Lookup, mark: Mark)
    requires Resolve(server, planned, value).Ok? && lookup in Lookups(value)
    requires ResolveLookup(server, planned, lookup).Ok? && Bears(ResolveLookup(server, planned, lookup).value, mark)
    ensures Holds(Resolve(server, planned, value).value, value, mark)
    decreases value
  {
    match value
    case Obj(fields) =>
      if "_lookup" !in fields {
        var key :| key in fields && lookup in Lookups(fields[key]);
        ResolvedHolds(server, planned, fields[key], lookup, mark);
      }
    case Arr(items) =>
      var i :| 0 <= i < |items| && lookup in Lookups(items[i]);
      ResolvedHolds(server, planned, items[i], lookup, mark);
    case _ =>
  }

  /** `fields` is never itself a lookup, at any depth. */
  predicate FieldsDeclared(declared: Object)
    decreases Obj(declared)
  {
    forall key | key in declared && declared[key].Obj? ::
      (key == "fields" ==> "_lookup" !in declared[key].fields) && FieldsDeclared(declared[key].fields)
  }

  /** A placeholder that is merged into an object stays recognisable. */
  lemma MergedPlaceholder(base: Object, values: Object)
    requires Merge(base, values).Ok? && "_plannedLookup" in values
    ensures "_plannedLookup" in Merge(base, values).value
  {
    assert MergeAt(base, "_plannedLookup", values["_plannedLookup"]).Ok?;
  }

  /** Merging a resolved declaration leaves the mark in the result. */
  lemma {:induction false} MergedHolds(
      server: Server, planned: set<Lookup>, declared: Object, lookup: Lookup, mark: Mark, base: Object, values: Object)
    requires "_lookup" !in declared && FieldsDeclared(declared) && lookup in Lookups(Obj(declared))
    requires Resolve(server, planned, Obj(declared)) == Ok(Obj(values))
    requires ResolveLookup(server, planned, lookup).Ok? && Bears(ResolveLookup(server, planned, lookup).value, mark)
    requires Merge(base, values).Ok?
    ensures Holds(Obj(Merge(base, values).value), Obj(declared), mark)
    decreases Obj(declared), 1
  {
    var key :| key in declared && lookup in Lookups(declared[key]);
    assert values[key] == Resolve(server, planned, declared[key]).value;
    ResolvedHolds(server, planned, declared[key], lookup, mark);
    if IsFieldsCase(key, values[key]) {
      FieldsHold(server, planned, declared, lookup, mark, base, values);
    } else {
      MergedHoldsAt(server, planned, declared, key, lookup, mark, base, values);
    }
  }

  lemma FieldsHold(
      server: Server, planned: set<Lookup>, declared: Object, lookup: Lookup, mark: Mark, base: Object, values: Object)
    requires "_lookup" !in declared && FieldsDeclared(declared)
    requires "fields" in declared && IsFieldsCase("fields", declared["fields"]) && lookup in Lookups(declared["fields"])
    requires Resolve(server, planned, Obj(declared)) == Ok(Obj(values))
    requires ResolveLookup(server, planned, lookup).Ok? && Bears(ResolveLookup(server, planned, lookup).value, mark)
    requires Merge(base, values).Ok?
    ensures Holds(Obj(Merge(base, values).value), Obj(declared), mark)
  {
    assert values["fields"] == Resolve(server, planned, declared["fields"]).value;
    var name :| name in declared["fields"].fields && lookup in Lookups(declared["fields"].fields[name]);
    ResolvedHolds(server, planned, declared["fields"].fields[name], lookup, mark);
    var i := FieldSet(base, values, name);
    assert FieldHolds(Merge(base, values).value["fields"].items[i], name, declared["fields"].fields[name], mark);
  }

  lemma {:induction false} MergedHoldsAt(
      server: Server, planned: set<Lookup>, declared: Object, key: string, lookup: Lookup, mark: Mark, base: Object,
          values: Object)
    requires "_lookup" !in declared && FieldsDeclared(declared) && key in declared && lookup in Lookups(declared[key])
    requires key in values && Resolve(server, planned, declared[key]) == Ok(values[key])
    requires !IsFieldsCase(key, values[key])
    requires ResolveLookup(server, planned, lookup).Ok? && Bears(ResolveLookup(server, planned, lookup).value, mark)
    requires Merge(base, values).Ok? && Holds(values[key], declared[key], mark)
    ensures key in Merge(base, values).value && Holds(Merge(base, values).value[key], declared[key], mark)
    decreases Obj(declared), 0
  {
    assert MergeAt(base, key, values[key]).Ok?;
    if values[key].Obj? && key in base && base[key].Obj? {
      if "_lookup" in declared[key].fields {
        MergedPlaceholder(base[key].fields, values[key].fields);
      } else {
        MergedHolds(server, planned, declared[key].fields, lookup, mark, base[key].fields, values[key].fields);
      }
    }
  }

  /** The merged list has a field of the declared name that carries the declared value. */
  lemma FieldSet(base: Object, values: Object, name: string) returns (i: nat)
    requires "fields" in values && values["fields"].Obj? && name in values["fields"].fields && Merge(base, values).Ok?
    ensures
      var merged := Merge(base, values).value;
      && "fields" in merged && merged["fields"].Arr? && i < |merged["fields"].items|
      && NameOf(merged["fields"].items[i]) == Str(name) && merged["fields"].items[i].Obj?
      && "value" in merged["fields"].items[i].fields
      && merged["fields"].items[i].fields["value"] == values["fields"].fields[name]
  {
    var declared := values["fields"].fields;
    var current := if "fields" in base then base["fields"] else Arr([]);
    assert MergeAt(base, "fields", values["fields"]).Ok?;
    assert HasField(FieldList(current).value, name);
    var items := current.items;
    var j :| 0 <= j < |items| && NameOf(items[j]) == Str(name);
    i := LastNamed(items, j);
    SetFieldsTwice(items, declared);
    assert Merge(base, values).value["fields"].items[i] == SetField(items, i, declared);
  }

  // ---------------------------------------------------------------- two resolutions of one declaration

  /** Lookups succeed together, so the whole resolution does; if they also agree, so do the results. */
  lemma {:induction false} ResolveAgrees(a: Server, pa: set<Lookup>, b: Server, pb: set<Lookup>, value: Json)
    requires forall lookup | lookup in Lookups(value) :: ResolveLookup(a, pa, lookup).Ok? <==>
        ResolveLookup(b, pb, lookup).Ok?
    ensures Resolve(a, pa, value).Ok? <==> Resolve(b, pb, value).Ok?
    ensures (forall lookup | lookup in Lookups(value) ::
        ResolveLookup(a, pa, lookup) == ResolveLookup(b, pb, lookup)) ==>
        Resolve(a, pa, value) == Resolve(b, pb, value)
    decreases value
  {
    match value
    case Obj(fields) =>
      if "_lookup" in fields {
        assert LookupOf(fields).Ok? ==> LookupOf(fields).value in Lookups(value);
      } else {
        forall key | key in fields
          ensures Resolve(a, pa, fields[key]).Ok? <==> Resolve(b, pb, fields[key]).Ok?
          ensures (forall lookup | lookup in Lookups(value) ::
              ResolveLookup(a, pa, lookup) == ResolveLookup(b, pb, lookup)) ==>
              Resolve(a, pa, fields[key]) == Resolve(b, pb, fields[key])
        {
          assert forall lookup | lookup in Lookups(fields[key]) :: lookup in Lookups(value);
          ResolveAgrees(a, pa, b, pb, fields[key]);
        }
        if Resolve(a, pa, value).Ok? && forall lookup | lookup in Lookups(value) ::
            ResolveLookup(a, pa, lookup) == ResolveLookup(b, pb, lookup) {
          assert Resolve(a, pa, value).value.fields == Resolve(b, pb, value).value.fields;
        }
      }
    case Arr(items) =>
      forall i | 0 <= i < |items|
        ensures Resolve(a, pa, items[i]).Ok? <==> Resolve(b, pb, items[i]).Ok?
        ensures (forall lookup | lookup in Lookups(value) ::
            ResolveLookup(a, pa, lookup) == ResolveLookup(b, pb, lookup)) ==>
            Resolve(a, pa, items[i]) == Resolve(b, pb, items[i])
      {
        assert forall lookup | lookup in Lookups(items[i]) :: lookup in Lookups(value);
        ResolveAgrees(a, pa, b, pb, items[i]);
      }
      if Resolve(a, pa, value).Ok? && forall lookup | lookup in Lookups(value) ::
          ResolveLookup(a, pa, lookup) == ResolveLookup(b, pb, lookup) {
        assert Resolve(a, pa, value).value.items == Resolve(b, pb, value).value.items;
      }
    case _ =>
  }

  /** Two resolutions of a value differ at most where one of these lookups stands. */
  predicate Alike(x: Json, y: Json, value: Json, differing: set<Lookup>)
    decreases value
  {
    match value
    case Obj(fields) =>
      if "_lookup" in fields then x == y || (LookupOf(fields).Ok? && LookupOf(fields).value in differing)
      else
        && x.Obj? && y.Obj? && x.fields.Keys == fields.Keys && y.fields.Keys == fields.Keys
        && forall key | key in fields :: Alike(x.fields[key], y.fields[key], fields[key], differing)
    case Arr(items) =>
      && x.Arr? && y.Arr? && |x.items| == |items| && |y.items| == |items|
      && forall i | 0 <= i < |items| :: Alike(x.items[i], y.items[i], items[i], differing)
    case _ => x == value && y == value
  }

  /** Resolutions of one value agree except at the lookups that were answered differently. */
  lemma {:induction false} ResolveAlike(a: Server, pa: set<Lookup>, b: Server, pb: set<Lookup>, value: Json,
        differing: set<Lookup>)
    requires Resolve(a, pa, value).Ok? && Resolve(b, pb, value).Ok?
    requires forall lookup | lookup in Lookups(value) && lookup !in differing ::
        ResolveLookup(a, pa, lookup) == ResolveLookup(b, pb, lookup)
    ensures Alike(Resolve(a, pa, value).value, Resolve(b, pb, value).value, value, differing)
    decreases value
  {
    match value
    case Obj(fields) =>
      if "_lookup" in fields {
        assert LookupOf(fields).value in Lookups(value);
      } else {
        forall key | key in fields
          ensures Alike(Resolve(a, pa, fields[key]).value, Resolve(b, pb, fields[key]).value, fields[key], differing)
        {
          assert forall lookup | lookup in Lookups(fields[key]) :: lookup in Lookups(value);
          ResolveAlike(a, pa, b, pb, fields[key], differing);
        }
      }
    case Arr(items) =>
      forall i | 0 <= i < |items|
        ensures Alike(Resolve(a, pa, items[i]).value, Resolve(b, pb, items[i]).value, items[i], differing)
      {
        assert forall lookup | lookup in Lookups(items[i]) :: lookup in Lookups(value);
        ResolveAlike(a, pa, b, pb, items[i], differing);
      }
    case _ =>
  }

  /** Every answer is an id or the placeholder of a planned object. */
  ghost predicate Shaped(server: Server, planned: set<Lookup>) {
    server.Valid() && forall lookup | lookup in planned :: lookup.name.Str?
  }

  lemma AnswerShape(server: Server, planned: set<Lookup>, lookup: Lookup)
    requires Shaped(server, planned) && ResolveLookup(server, planned, lookup).Ok?
    ensures
      var answer := ResolveLookup(server, planned, lookup).value;
      if IsPlanned(server, planned, lookup) then answer == Placeholder(lookup) && lookup.name.Str?
      else answer.Num? && answer.n < server.nextId
  {
  }

  /** An answer can be merged wherever a lookup may stand. */
  lemma AnswerMerges(base: Object, key: string, server: Server, planned: set<Lookup>, lookup: Lookup)
    requires Shaped(server, planned) && ResolveLookup(server, planned, lookup).Ok? && key != "fields"
    ensures MergeAt(base, key, ResolveLookup(server, planned, lookup).value).Ok?
  {
    AnswerShape(server, planned, lookup);
    var answer := ResolveLookup(server, planned, lookup).value;
    if answer.Obj? {
      assert FieldsFree(answer.fields["_plannedLookup"].fields);
      assert FieldsFree(answer.fields);
      if key in base && base[key].Obj? {
        MergeSatisfies(base[key].fields, answer.fields);
      }
    }
  }

  /** Whether a merge succeeds does not depend on what the lookups of the declaration were answered with. */
  lemma {:induction false} MergeFollows(
      a: Server, pa: set<Lookup>, b: Server, pb: set<Lookup>, declared: Object, va: Object, vb: Object, base: Object)
    requires Shaped(b, pb) && "_lookup" !in declared && FieldsDeclared(declared)
    requires Resolve(a, pa, Obj(declared)) == Ok(Obj(va)) && Resolve(b, pb, Obj(declared)) == Ok(Obj(vb))
    requires Merge(base, va).Ok?
    ensures Merge(base, vb).Ok?
    decreases Obj(declared)
  {
    forall key | key in vb
      ensures MergeAt(base, key, vb[key]).Ok?
    {
      var value := declared[key];
      assert va[key] == Resolve(a, pa, value).value && vb[key] == Resolve(b, pb, value).value;
      assert MergeAt(base, key, va[key]).Ok?;
      if value.Obj? && "_lookup" in value.fields {
        AnswerMerges(base, key, b, pb, LookupOf(value.fields).value);
      } else if value.Obj? && key != "fields" && key in base && base[key].Obj? {
        MergeFollows(a, pa, b, pb, value.fields, va[key].fields, vb[key].fields, base[key].fields);
      } else if value.Obj? {
        SameKeysMerge(base, key, va[key].fields, vb[key].fields);
      }
    }
  }

  /** Without a nested object the merge depends on the declared keys only. */
  lemma SameKeysMerge(base: Object, key: string, va: Object, vb: Object)
    requires va.Keys == vb.Keys && MergeAt(base, key, Obj(va)).Ok?
    requires key == "fields" || !(key in base && base[key].Obj?)
    ensures MergeAt(base, key, Obj(vb)).Ok?
  {
  }

  // ---------------------------------------------------------------- the dry run as the shadow of the real one

  lemma {:induction false} LookupsAreNamed(value: Json, lookup: Lookup)
    requires lookup in Lookups(value)
    ensures lookup.endpoint in LOOKUP_ENDPOINTS
    decreases value
  {
    match value
    case Obj(fields) =>
      if "_lookup" !in fields {
        var key :| key in fields && lookup in Lookups(fields[key]);
        LookupsAreNamed(fields[key], lookup);
      }
    case Arr(items) =>
      var i :| 0 <= i < |items| && lookup in Lookups(items[i]);
      LookupsAreNamed(items[i], lookup);
    case _ =>
  }

  /** The real run answers a planned lookup with an id assigned during the run, and any other as the dry run does. */
  ghost predicate AnswersAgree(start: Server, planned: set<Lookup>, server: Server, lookup: Lookup) {
    var answer := ResolveLookup(server, {}, lookup);
    if IsPlanned(start, planned, lookup)
    then answer.Ok? && answer.value.Num? && answer.value.n >= start.nextId
    else answer == ResolveLookup(start, planned, lookup)
  }

  ghost predicate AllAnswersAgree(start: Server, planned: set<Lookup>, server: Server) {
    forall lookup: Lookup | lookup.endpoint in LOOKUP_ENDPOINTS :: AnswersAgree(start, planned, server, lookup)
  }

  /** Lookups stand neither for a whole `fields` object nor in the implementation. */
  ghost predicate Predictable(r: Resource) {
    && Keyed(r)
    && FieldsDeclared(Declared(r))
    && ("implementation" in Declared(r) ==> Lookups(Declared(r)["implementation"]) == {})
  }

  /** No matched object already holds, where the plan declares a lookup, a placeholder or an id not assigned yet. */
  ghost predicate Unmarked(start: Server, r: Resource) {
    forall i | 0 <= i < |start.Collection(r.endpoint)| && Satisfies(start.Collection(r.endpoint)[i], Pattern(r)) ::
      && !Holds(Obj(start.Collection(r.endpoint)[i]), Obj(Declared(r)), Planned)
      && !Holds(Obj(start.Collection(r.endpoint)[i]), Obj(Declared(r)), Assigned(start.nextId))
  }

  /** A dry run resolves a declaration when the real run does, and to the same values except at planned lookups. */
  lemma ValuesAgree(start: Server, planned: set<Lookup>, server: Server, config: Config, r: Resource)
    requires Shaped(start, planned) && AllAnswersAgree(start, planned, server) && Supported(config, r)
    ensures ValuesOf(start, planned, r).Ok? <==> ValuesOf(server, {}, r).Ok?
    ensures ValuesOf(start, planned, r).Ok? ==> "_lookup" !in Declared(r)
    ensures PlannedLookups(start, planned, r) == {} ==> ValuesOf(start, planned, r) == ValuesOf(server, {}, r)
    ensures ValuesOf(start, planned, r).Ok? ==>
        Alike(Obj(ValuesOf(start, planned, r).value), Obj(ValuesOf(server, {}, r).value), Obj(Declared(r)),
          PlannedLookups(start, planned, r))
  {
    var value := Obj(Declared(r));
    forall lookup | lookup in Lookups(value)
      ensures ResolveLookup(start, planned, lookup).Ok? <==> ResolveLookup(server, {}, lookup).Ok?
      ensures !IsPlanned(start, planned, lookup) ==>
          ResolveLookup(start, planned, lookup) == ResolveLookup(server, {}, lookup)
    {
      LookupsAreNamed(value, lookup);
      assert AnswersAgree(start, planned, server, lookup);
    }
    ResolveAgrees(start, planned, server, {}, value);
    if "_lookup" in Declared(r) {
      TopLevelLookupFails(start, planned, r);
    }
    if ValuesOf(start, planned, r).Ok? {
      ResolveAlike(start, planned, server, {}, value, PlannedLookups(start, planned, r));
    }
    if PlannedLookups(start, planned, r) == {} {
      assert forall lookup | lookup in Lookups(value) :: lookup !in PlannedLookups(start, planned, r);
    }
  }

  lemma ImplementationAgrees(start: Server, planned: set<Lookup>, server: Server, r: Resource, vd: Object, vr: Object)
    requires Predictable(r) && "_lookup" !in Declared(r)
    requires ValuesOf(start, planned, r) == Ok(vd) && ValuesOf(server, {}, r) == Ok(vr)
    ensures vd.Keys == vr.Keys == Declared(r).Keys
    ensures "implementation" in vd ==> vd["implementation"] == vr["implementation"]
  {
    if "implementation" in vd {
      var value := Declared(r)["implementation"];
      ResolveAgrees(start, planned, server, {}, value);
    }
  }

  /** Merges into the same base succeed together; with a planned lookup both change a base that is unmarked. */
  lemma MergesAgree(start: Server, planned: set<Lookup>, server: Server, r: Resource, vd: Object, vr: Object,
        base: Object)
    requires Shaped(start, planned) && server.Valid() && AllAnswersAgree(start, planned, server)
    requires Predictable(r) && "_lookup" !in Declared(r)
    requires ValuesOf(start, planned, r) == Ok(vd) && ValuesOf(server, {}, r) == Ok(vr)
    ensures Merge(base, vd).Ok? <==> Merge(base, vr).Ok?
    ensures
      && PlannedLookups(start, planned, r) != {} && Merge(base, vd).Ok?
      && !Holds(Obj(base), Obj(Declared(r)), Planned) && !Holds(Obj(base), Obj(Declared(r)), Assigned(start.nextId))
      ==> Merge(base, vd).value != base && Merge(base, vr).value != base
  {
    if Merge(base, vd).Ok? {
      MergeFollows(start, planned, server, {}, Declared(r), vd, vr, base);
    }
    if Merge(base, vr).Ok? {
      MergeFollows(server, {}, start, planned, Declared(r), vr, vd, base);
    }
    if PlannedLookups(start, planned, r) != {} && Merge(base, vd).Ok? {
      var lookup :| lookup in PlannedLookups(start, planned, r);
      LookupsAreNamed(Obj(Declared(r)), lookup);
      assert AnswersAgree(start, planned, server, lookup);
      MergedHolds(start, planned, Declared(r), lookup, Planned, base, vd);
      MergedHolds(server, {}, Declared(r), lookup, Assigned(start.nextId), base, vr);
    }
  }

  predicate SameKind(a: Change, b: Change) {
    (a.Leave? <==> b.Leave?) && (a.Replace? <==> b.Replace?) && (a.Create? <==> b.Create?)
  }

  lemma DecisionsAgree(start: Server, planned: set<Lookup>, server: Server, config: Config, r: Resource, vd: Object,
        vr: Object)
    requires Shaped(start, planned) && server.Valid() && AllAnswersAgree(start, planned, server)
    requires Predictable(r) && "_lookup" !in Declared(r) && Unmarked(start, r)
    requires PlannedLookups(start, planned, r) == {} ==> vd == vr
    requires ValuesOf(start, planned, r) == Ok(vd) && ValuesOf(server, {}, r) == Ok(vr)
    requires SameSearch(start.Collection(r.endpoint), server.Collection(r.endpoint), Pattern(r))
    requires start.schemas == server.schemas
    ensures Decide(start, config, r, vd).Ok? <==> Decide(server, config, r, vr).Ok?
    ensures Decide(start, config, r, vd).Ok? ==>
        SameKind(Decide(start, config, r, vd).value, Decide(server, config, r, vr).value)
  {
    ImplementationAgrees(start, planned, server, r, vd, vr);
    match Search(start.Collection(r.endpoint), Pattern(r))
    case Many =>
    case One(i) =>
      SearchMeans(start.Collection(r.endpoint), Pattern(r));
      MergesAgree(start, planned, server, r, vd, vr, start.Collection(r.endpoint)[i]);
    case Nothing =>
      assert Template(start, r.endpoint, vd) == Template(server, r.endpoint, vr);
      if Template(start, r.endpoint, vd).Ok? {
        MergesAgree(start, planned, server, r, vd, vr, Template(start, r.endpoint, vd).value);
      }
  }

  /** After a step the two runs still agree on every lookup. */
  lemma AnswersAgreeAfter(start: Server, planned: set<Lookup>, before: Server, after: Server, r: Resource,
        lookup: Lookup)
    requires start.Valid() && before.Valid() && start.nextId <= before.nextId && lookup.endpoint in LOOKUP_ENDPOINTS
    requires AnswersAgree(start, planned, before, lookup) && Effect(before, after, r) && Keyed(r)
    requires SameSearch(start.Collection(r.endpoint), before.Collection(r.endpoint), Pattern(r))
    requires Search(before.Collection(r.endpoint), Pattern(r)).Nothing? ==>
        Extended(before.Collection(r.endpoint), after.Collection(r.endpoint), Pattern(r), before.nextId)
    ensures
      var more := if Search(before.Collection(r.endpoint), Pattern(r)).Nothing? then planned + Identity(r) else planned;
      AnswersAgree(start, more, after, lookup)
  {
    var pattern: Object := map[LookupKey(lookup.endpoint) := lookup.name];
    if lookup.endpoint == r.endpoint {
      var key := LookupKey(r.endpoint);
      assert Pattern(r).Keys == {key};
      if Pattern(r)[key] == lookup.name {
        assert Pattern(r) == pattern;
        assert Identity(r) == {lookup};
        if Search(before.Collection(r.endpoint), pattern).Nothing? {
          SearchExtended(before.Collection(r.endpoint), after.Collection(r.endpoint), pattern, before.nextId);
        } else if ResolveLookup(before, {}, lookup).Ok? {
          EffectOnLookup(before, after, r, lookup);
        } else {
          SearchStaysMany(before, after, r, pattern);
        }
      } else {
        assert Conflict(Pattern(r), pattern);
        ConflictUndisturbed(before, after, r, pattern);
        EffectOnSearch(before, after, r, lookup.endpoint, pattern);
        assert lookup !in Identity(r);
      }
    } else {
      EffectElsewhere(before, after, r, lookup);
    }
  }

  lemma SearchExtended(before: seq<Object>, after: seq<Object>, pattern: Object, id: int)
    requires Extended(before, after, pattern, id)
    ensures Search(after, pattern) == One(|before|)
  {
    assert after == before + [after[|before|]];
    SearchAppended(before, after[|before|], pattern);
  }

  lemma ManyStay(before: seq<Object>, after: seq<Object>, pattern: Object)
    requires |after| == |before| && Search(before, pattern).Many?
    requires forall j | 0 <= j < |before| :: Satisfies(after[j], pattern) <==> Satisfies(before[j], pattern)
    ensures Search(after, pattern).Many?
  {
    SearchMeans(before, pattern);
    SearchMeans(after, pattern);
  }

  lemma SearchStaysMany(before: Server, after: Server, r: Resource, pattern: Object)
    requires Effect(before, after, r) && pattern == Pattern(r) && Search(before.Collection(r.endpoint), pattern).Many?
    ensures Search(after.Collection(r.endpoint), pattern).Many?
  {
    var b, a := before.Collection(r.endpoint), after.Collection(r.endpoint);
    if a != b {
      var i :| 0 <= i < |b| && Rewritten(b, a, pattern, i);
      ManyStay(b, a, pattern);
    }
  }

  lemma EffectElsewhere(before: Server, after: Server, r: Resource, lookup: Lookup)
    requires Effect(before, after, r) && lookup.endpoint != r.endpoint
    ensures ResolveLookup(after, {}, lookup) == ResolveLookup(before, {}, lookup)
    ensures lookup !in Identity(r)
  {
  }

  /** The dry run has counted what the real run did, and sees for the rest of the plan what the real run will see. */
  ghost predicate Shadow(start: Server, dry: Run, live: Run, rest: seq<Resource>) {
    && start.Valid() && dry.server == start && dry.writes == 0
    && live.server.Valid() && start.nextId <= live.server.nextId && live.server.schemas == start.schemas
    && dry.counts == live.counts
    && Shaped(start, dry.planned)
    && AllAnswersAgree(start, dry.planned, live.server)
    && (forall r | r in rest && r.match_.Keys <= MATCH_KEYS ::
        SameSearch(start.Collection(r.endpoint), live.server.Collection(r.endpoint), Pattern(r)))
  }

  /** The id a real run answers with; null when it fails. */
  function AnswerOf(server: Server, lookup: Lookup): Json {
    var answer := ResolveLookup(server, {}, lookup);
    if answer.Ok? then answer.value else Null
  }

  /** The lookups of a resource that the real run answers with an object created since the start. */
  ghost function OwnLookups(server: Server, from: int, r: Resource): set<Lookup> {
    set lookup | lookup in Lookups(Obj(Declared(r))) && Bears(AnswerOf(server, lookup), Assigned(from))
  }

  lemma PlannedAreOwn(start: Server, planned: set<Lookup>, server: Server, r: Resource)
    requires Shaped(start, planned) && AllAnswersAgree(start, planned, server)
    ensures PlannedLookups(start, planned, r) == OwnLookups(server, start.nextId, r)
  {
    forall lookup | lookup in Lookups(Obj(Declared(r)))
      ensures IsPlanned(start, planned, lookup) <==> Bears(AnswerOf(server, lookup), Assigned(start.nextId))
    {
      LookupsAreNamed(Obj(Declared(r)), lookup);
      assert AnswersAgree(start, planned, server, lookup);
      if !IsPlanned(start, planned, lookup) && ResolveLookup(start, planned, lookup).Ok? {
        AnswerShape(start, planned, lookup);
      }
    }
  }

  lemma RecordsAgree(dry: Run, live: Run, r: Resource, cd: Change, cl: Change)
    requires SameKind(cd, cl) && dry.counts == live.counts
    ensures
      var d, w := Record(dry, r, cd, true), Record(live, r, cl, false);
      && d.server == dry.server && d.writes == dry.writes && d.counts == w.counts && d.dependencies == dry.dependencies
      && d.planned == if cd.Create? then dry.planned + Identity(r) else dry.planned
  {
  }

  lemma CreatesWhenNothing(server: Server, config: Config, r: Resource, values: Object)
    requires Decide(server, config, r, values).Ok?
    ensures Decide(server, config, r, values).value.Create? <==>
        Search(server.Collection(r.endpoint), Pattern(r)).Nothing?
  {
  }

  /** What the step of a resource adds to a dry run, and that it fails only with the real one. */
  lemma StepsAgree(start: Server, dry: Run, live: Run, config: Config, r: Resource)
    requires Shadow(start, dry, live, [r]) && Predictable(r) && Unmarked(start, r)
    ensures Apply(dry, config, r, true).Ok? <==> Apply(live, config, r, false).Ok?
    ensures Apply(dry, config, r, true).Ok? ==>
      var d, w := Apply(dry, config, r, true).value, Apply(live, config, r, false).value;
      && d.server == start && d.writes == 0 && d.counts == w.counts
      && d.dependencies == dry.dependencies + OwnLookups(live.server, start.nextId, r)
      && d.planned == if Search(live.server.Collection(r.endpoint), Pattern(r)).Nothing? then dry.planned + Identity(r)
          else dry.planned
  {
    if Supported(config, r) {
      assert r in [r];
      ValuesAgree(start, dry.planned, live.server, config, r);
      PlannedAreOwn(start, dry.planned, live.server, r);
      if ValuesOf(start, dry.planned, r).Ok? {
        var vd, vr := ValuesOf(start, dry.planned, r).value, ValuesOf(live.server, {}, r).value;
        DecisionsAgree(start, dry.planned, live.server, config, r, vd, vr);
        if Decide(start, config, r, vd).Ok? {
          CreatesWhenNothing(start, config, r, vd);
          var noted := dry.(dependencies := dry.dependencies + PlannedLookups(start, dry.planned, r));
          RecordsAgree(noted, live.(dependencies := live.dependencies + PlannedLookups(live.server, {}, r)), r,
            Decide(start, config, r, vd).value, Decide(live.server, config, r, vr).value);
        }
      }
    }
  }

  lemma ApplyExtends(live: Run, config: Config, r: Resource)
    requires live.server.Valid() && "id" !in r.values && Apply(live, config, r, false).Ok?
    requires Search(live.server.Collection(r.endpoint), Pattern(r)).Nothing?
    ensures
      var after := Apply(live, config, r, false).value.server;
      Extended(live.server.Collection(r.endpoint), after.Collection(r.endpoint), Pattern(r), live.server.nextId)
  {
    if "_lookup" in Declared(r) {
      TopLevelLookupFails(live.server, {}, r);
    }
    var values, base := ApplyWrites(live, config, r);
    ValuesKeepMatch(live.server, r);
    MergedShape(base, values, r);
    CreateExtends(live.server, r, Merge(base, values).value);
  }

  /** Nothing that a real run writes for the resource concerns the match of the other. */
  ghost predicate Separate(start: Server, config: Config, r: Resource, other: Resource) {
    ResultApart(start, config.managed, r, other) && (config.managed ==> !Contested(start, r, other))
  }

  /** The real run merges the resource into what the dry run finds for it. */
  lemma WroteOverStart(start: Server, managed: bool, before: Server, after: Server, r: Resource, values: Object,
        base: Object, t: nat)
    requires before.Valid() && "_lookup" !in Declared(r) && Wrote(before, after, r, values, base, t)
    requires SameSearch(start.Collection(r.endpoint), before.Collection(r.endpoint), Pattern(r))
    requires before.schemas == start.schemas && (managed || t == |before.Collection(r.endpoint)|)
    ensures IsBase(start, managed, r, base)
    ensures t < |before.Collection(r.endpoint)| ==>
        && t < |start.Collection(r.endpoint)|
        && start.Collection(r.endpoint)[t] == before.Collection(r.endpoint)[t] == base
        && Satisfies(base, Pattern(r))
  {
    WroteBase(before, after, r, values, base, t);
    assert before.Schemas(r.endpoint) == start.Schemas(r.endpoint);
  }

  /** The object that the real run rewrites is one that the dry run sees, so an uncontested one. */
  lemma BaseUncontested(start: Server, config: Config, r: Resource, other: Resource, base: Object, t: nat)
    requires config.managed && Separate(start, config, r, other) && r.endpoint == other.endpoint
    requires t < |start.Collection(r.endpoint)| && start.Collection(r.endpoint)[t] == base
        && Satisfies(base, Pattern(r))
    ensures !Satisfies(base, Pattern(other))
  {
  }

  lemma WroteUndisturbed(start: Server, config: Config, before: Server, after: Server, r: Resource, other: Resource,
        values: Object, base: Object, t: nat)
    requires before.Valid() && "_lookup" !in Declared(r) && Wrote(before, after, r, values, base, t)
    requires SameSearch(start.Collection(r.endpoint), before.Collection(r.endpoint), Pattern(r))
    requires before.schemas == start.schemas && Separate(start, config, r, other)
    requires config.managed || t == |before.Collection(r.endpoint)|
    requires r.endpoint == other.endpoint && other.match_.Keys <= MATCH_KEYS
    ensures Undisturbed(before.Collection(r.endpoint), after.Collection(r.endpoint), Pattern(other))
  {
    WroteOverStart(start, config.managed, before, after, r, values, base, t);
    if t < |before.Collection(r.endpoint)| {
      BaseUncontested(start, config, r, other, base, t);
    }
    WroteOutcome(before, after, r, values, base, t);
    OutcomeMisses(after.Collection(r.endpoint)[t], base, r, other);
    OnlyPlaceWritten(before, after, r, values, base, t, Pattern(other));
  }

  lemma OnlyPlaceWritten(before: Server, after: Server, r: Resource, values: Object, base: Object, t: nat,
        pattern: Object)
    requires Wrote(before, after, r, values, base, t) && !Satisfies(after.Collection(r.endpoint)[t], pattern)
    requires t < |before.Collection(r.endpoint)| ==> !Satisfies(before.Collection(r.endpoint)[t], pattern)
    ensures Undisturbed(before.Collection(r.endpoint), after.Collection(r.endpoint), pattern)
  {
  }

  lemma StepUndisturbed(start: Server, live: Run, config: Config, r: Resource, other: Resource, w: Run)
    requires live.server.Valid() && live.server.schemas == start.schemas && Separate(start, config, r, other)
    requires SameSearch(start.Collection(r.endpoint), live.server.Collection(r.endpoint), Pattern(r))
    requires "id" !in r.values && ResourceSteps(config, false)(live, r) == Ok(w)
    requires r.endpoint == other.endpoint && other.match_.Keys <= MATCH_KEYS
    ensures Undisturbed(live.server.Collection(r.endpoint), w.server.Collection(r.endpoint), Pattern(other))
  {
    if config.managed || Search(live.server.Collection(r.endpoint), Pattern(r)).Nothing? {
      var values, base, t := StepWrote(live, config, r, w);
      WroteUndisturbed(start, config, live.server, w.server, r, other, values, base, t);
    }
  }

  /** The dry run goes on shadowing the real one after every step. */
  lemma ShadowGoesOn(start: Server, dry: Run, live: Run, config: Config, r: Resource, rest: seq<Resource>, d: Run,
        w: Run)
    requires Shadow(start, dry, live, [r] + rest) && Predictable(r) && Unmarked(start, r)
    requires forall other | other in rest :: Separate(start, config, r, other)
    requires Apply(dry, config, r, true) == Ok(d) && Apply(live, config, r, false) == Ok(w)
    ensures Shadow(start, d, w, rest)
    ensures d.dependencies == dry.dependencies + OwnLookups(live.server, start.nextId, r)
  {
    StepsAgree(start, dry, live, config, r) by {
      assert r in [r] + rest;
    }
    ApplyEffect(live, config, r);
    if Search(live.server.Collection(r.endpoint), Pattern(r)).Nothing? {
      ApplyExtends(live, config, r);
    }
    assert r.match_.Keys <= MATCH_KEYS && r in [r] + rest;
    forall other | other in rest && other.endpoint == r.endpoint && other.match_.Keys <= MATCH_KEYS
      ensures Undisturbed(live.server.Collection(r.endpoint), w.server.Collection(r.endpoint), Pattern(other))
    {
      StepUndisturbed(start, live, config, r, other, w);
    }
    ShadowAfter(start, dry, live, r, rest, d, w);
  }

  lemma ShadowAfter(start: Server, dry: Run, live: Run, r: Resource, rest: seq<Resource>, d: Run, w: Run)
    requires Shadow(start, dry, live, [r] + rest) && Keyed(r) && r.match_.Keys <= MATCH_KEYS
    requires d.server == start && d.writes == 0 && d.counts == w.counts
    requires d.planned ==
        if Search(live.server.Collection(r.endpoint), Pattern(r)).Nothing? then dry.planned + Identity(r)
        else dry.planned
    requires Effect(live.server, w.server, r)
    requires Search(live.server.Collection(r.endpoint), Pattern(r)).Nothing? ==>
        Extended(live.server.Collection(r.endpoint), w.server.Collection(r.endpoint), Pattern(r), live.server.nextId)
    requires forall other | other in rest && other.endpoint == r.endpoint && other.match_.Keys <= MATCH_KEYS ::
        Undisturbed(live.server.Collection(r.endpoint), w.server.Collection(r.endpoint), Pattern(other))
    ensures Shadow(start, d, w, rest)
  {
    assert r in [r] + rest && forall other | other in rest :: other in [r] + rest;
    forall lookup: Lookup | lookup.endpoint in LOOKUP_ENDPOINTS {
      AnswersAgreeAfter(start, dry.planned, live.server, w.server, r, lookup);
    }
    forall other | other in rest && other.match_.Keys <= MATCH_KEYS
      ensures SameSearch(start.Collection(other.endpoint), w.server.Collection(other.endpoint), Pattern(other))
    {
      EffectOnSearch(live.server, w.server, r, other.endpoint, Pattern(other));
    }
  }

  // ---------------------------------------------------------------- whole runs

  /** The lookups that a real run answers with objects created since the start, over all its resources. */
  ghost function OwnInRun(run: Run, config: Config, from: int, rs: seq<Resource>): set<Lookup> {
    if rs == [] then {}
    else
      var before := RunResources(run, config, rs[..|rs| - 1], false);
      OwnInRun(run, config, from, rs[..|rs| - 1]) +
      if before.Ok? then OwnLookups(before.value.server, from, rs[|rs| - 1]) else {}
  }

  /** Every resource is separate from the later ones. */
  ghost predicate AllSeparate(start: Server, config: Config, rs: seq<Resource>) {
    forall i, j {:trigger Separate(start, config, rs[i], rs[j])} | 0 <= i < j < |rs| ::
      Separate(start, config, rs[i], rs[j])
  }

  lemma SeparateFromRest(start: Server, config: Config, rs: seq<Resource>, r: Resource, rest: seq<Resource>)
    requires AllSeparate(start, config, rs + ([r] + rest))
    ensures forall other | other in rest :: Separate(start, config, r, other)
  {
    var all := rs + ([r] + rest);
    forall other | other in rest
      ensures Separate(start, config, r, other)
    {
      var j :| 0 <= j < |rest| && rest[j] == other;
      assert Separate(start, config, all[|rs|], all[|rs| + 1 + j]);
    }
  }

  lemma {:induction false} ResourcesAgree(start: Server, dry: Run, live: Run, config: Config, rs: seq<Resource>,
        rest: seq<Resource>)
    requires Shadow(start, dry, live, rs + rest) && AllSeparate(start, config, rs + rest)
    requires forall r | r in rs :: Predictable(r) && Unmarked(start, r)
    ensures RunResources(dry, config, rs, true).Ok? <==> RunResources(live, config, rs, false).Ok?
    ensures RunResources(dry, config, rs, true).Ok? ==>
      var d, w := RunResources(dry, config, rs, true).value, RunResources(live, config, rs, false).value;
      Shadow(start, d, w, rest) && d.dependencies == dry.dependencies + OwnInRun(live, config, start.nextId, rs)
  {
    if rs == [] {
      assert rs + rest == rest;
    } else {
      var last := |rs| - 1;
      var r := rs[last];
      assert rs[..last] + ([r] + rest) == rs + rest;
      ResourcesAgree(start, dry, live, config, rs[..last], [r] + rest);
      if RunResources(dry, config, rs[..last], true).Ok? {
        var d := RunResources(dry, config, rs[..last], true).value;
        var w := RunResources(live, config, rs[..last], false).value;
        SeparateFromRest(start, config, rs[..last], r, rest);
        LastStepAgrees(start, d, w, config, r, rest);
      }
    }
  }

  lemma LastStepAgrees(start: Server, d: Run, w: Run, config: Config, r: Resource, rest: seq<Resource>)
    requires Shadow(start, d, w, [r] + rest) && Predictable(r) && Unmarked(start, r)
    requires forall other | other in rest :: Separate(start, config, r, other)
    ensures
      var dry, live := ResourceSteps(config, true)(d, r), ResourceSteps(config, false)(w, r);
      && (dry.Ok? <==> live.Ok?)
      && (dry.Ok? ==> Shadow(start, dry.value, live.value, rest))
      && (dry.Ok? ==> dry.value.dependencies == d.dependencies + OwnLookups(w.server, start.nextId, r))
  {
    assert Shadow(start, d, w, [r]) by {
      assert r in [r] + rest;
    }
    StepsAgree(start, d, w, config, r);
    var dry, live := Apply(d, config, r, true), Apply(w, config, r, false);
    if dry.Ok? {
      ShadowGoesOn(start, d, w, config, r, rest, dry.value, live.value);
    }
  }

  /** The settings sections still to come look alike to both runs. */
  ghost predicate SettingsShadow(start: Server, dry: Run, live: Run, rest: seq<Policy>) {
    && dry == Start(start).(counts := live.counts)
    && live.server.collections == start.collections && live.server.schemas == start.schemas
    && live.server.nextId == start.nextId
    && live.server.settings.Keys == start.settings.Keys
    && (forall p | p in rest && p.endpoint in start.settings ::
        live.server.settings[p.endpoint] == start.settings[p.endpoint])
  }

  lemma PolicyAgrees(start: Server, dry: Run, live: Run, config: Config, p: Policy, rest: seq<Policy>)
    requires SettingsShadow(start, dry, live, [p] + rest) && forall q | q in rest :: q.endpoint != p.endpoint
    ensures
      var d, w := PolicySteps(config, true)(dry, p), PolicySteps(config, false)(live, p);
      (d.Ok? <==> w.Ok?) && (d.Ok? ==> SettingsShadow(start, d.value, w.value, rest))
  {
    assert p in [p] + rest && forall q | q in rest :: q in [p] + rest;
  }

  lemma {:induction false} PoliciesAgree(start: Server, dry: Run, live: Run, config: Config, ps: seq<Policy>,
        rest: seq<Policy>)
    requires SettingsShadow(start, dry, live, ps + rest)
    requires forall i, j | 0 <= i < j < |ps + rest| :: (ps + rest)[i].endpoint != (ps + rest)[j].endpoint
    ensures RunPolicies(dry, config, ps, true).Ok? <==> RunPolicies(live, config, ps, false).Ok?
    ensures RunPolicies(dry, config, ps, true).Ok? ==>
      SettingsShadow(start, RunPolicies(dry, config, ps, true).value, RunPolicies(live, config, ps, false).value, rest)
  {
    if ps == [] {
      assert ps + rest == rest;
    } else {
      var last := |ps| - 1;
      assert ps[..last] + ([ps[last]] + rest) == ps + rest;
      PoliciesAgree(start, dry, live, config, ps[..last], [ps[last]] + rest);
      if RunPolicies(dry, config, ps[..last], true).Ok? {
        var d := RunPolicies(dry, config, ps[..last], true).value;
        var w := RunPolicies(live, config, ps[..last], false).value;
        forall p | p in rest
          ensures p.endpoint != ps[last].endpoint
        {
          var j :| 0 <= j < |rest| && rest[j] == p;
          assert (ps + rest)[last] == ps[last] && (ps + rest)[|ps| + j] == p;
        }
        PolicyAgrees(start, d, w, config, ps[last], rest);
      }
    }
  }

  /**
   * When no resource's result satisfies another's match and no stored object satisfies two matches, the dry run
   * succeeds exactly when the real run from the same server would, with the same counts. It writes nothing, and
   * its planned dependencies are the lookups that the real run answers with objects it created itself. A run
   * that is not managed moves no object, so there an object may satisfy two matches.
   */
  lemma DryRunPredicts(server: Server, config: Config)
    requires server.Valid() && Orderly(config) && ResultsApart(server, config.managed, config.resources)
    requires config.managed ==> Uncontested(server, config.resources)
    requires forall r | r in config.resources :: Predictable(r) && Unmarked(server, r)
    ensures RunAll(server, config, true).Ok? <==> RunAll(server, config, false).Ok?
    ensures RunAll(server, config, true).Ok? ==>
      var dry, live := RunAll(server, config, true).value, RunAll(server, config, false).value;
      var settled := RunPolicies(Start(server), config, config.policies, false);
      && dry.writes == 0 && dry.server == server
      && dry.counts == live.counts
      && settled.Ok? && dry.dependencies == OwnInRun(settled.value, config, server.nextId, config.resources)
  {
    assert config.policies + [] == config.policies && config.resources + [] == config.resources;
    PoliciesAgree(server, Start(server), Start(server), config, config.policies, []);
    if RunPolicies(Start(server), config, config.policies, true).Ok? {
      var dry := RunPolicies(Start(server), config, config.policies, true).value;
      var live := RunPolicies(Start(server), config, config.policies, false).value;
      ShadowFromPolicies(server, dry, live, config.resources);
      AllAreSeparate(server, config);
      ResourcesAgree(server, dry, live, config, config.resources, []);
    }
  }

  lemma AllAreSeparate(server: Server, config: Config)
    requires ResultsApart(server, config.managed, config.resources)
    requires config.managed ==> Uncontested(server, config.resources)
    ensures AllSeparate(server, config, config.resources)
  {
    var rs := config.resources;
    forall i, j | 0 <= i < j < |rs|
      ensures Separate(server, config, rs[i], rs[j])
    {
      assert ResultApart(server, config.managed, rs[i], rs[j]);
    }
  }

  lemma ShadowFromPolicies(server: Server, dry: Run, live: Run, rs: seq<Resource>)
    requires server.Valid() && SettingsShadow(server, dry, live, [])
    ensures Shadow(server, dry, live, rs)
  {
    assert forall e :: live.server.Collection(e) == server.Collection(e);
    assert forall lookup: Lookup :: ResolveLookup(live.server, {}, lookup) == ResolveLookup(server, {}, lookup);
  }

  // ---------------------------------------------------------------- when the prediction fails

  lemma StepCreates(run: Run, config: Config, r: Resource, dry: bool)
    requires Apply(run, config, r, dry).Ok?
    ensures
      var next, found := Apply(run, config, r, dry).value, Search(run.server.Collection(r.endpoint), Pattern(r));
      && next.counts.created == run.counts.created + (if found.Nothing? then 1 else 0)
      && !found.Many? && (dry ==> next.server == run.server)
  {
  }

  /** A resource without an object at the start has none when its turn comes. */
  lemma NothingStays(start: Server, server: Server, rs: seq<Resource>, m: nat)
    requires m < |rs| && Originated(start, server, rs, m)
    requires Search(start.Collection(rs[m].endpoint), Pattern(rs[m])).Nothing?
    ensures Search(server.Collection(rs[m].endpoint), Pattern(rs[m])).Nothing?
  {
    SearchMeans(start.Collection(rs[m].endpoint), Pattern(rs[m]));
    SearchMeans(server.Collection(rs[m].endpoint), Pattern(rs[m]));
    forall x | 0 <= x < |server.Collection(rs[m].endpoint)|
      ensures !Satisfies(server.Collection(rs[m].endpoint)[x], Pattern(rs[m]))
    {
      OriginMisses(start, server, rs, m, x);
    }
  }

  /** What satisfies the match when its turn comes was there at the start. */
  lemma OriginMisses(start: Server, server: Server, rs: seq<Resource>, m: nat, x: nat)
    requires m < |rs| && Originated(start, server, rs, m) && x < |server.Collection(rs[m].endpoint)|
    ensures
      var e := rs[m].endpoint;
      Satisfies(server.Collection(e)[x], Pattern(rs[m])) ==>
        && x < |start.Collection(e)| && server.Collection(e)[x] == start.Collection(e)[x]
        && !Moved(rs, m, e, server.Collection(e)[x])
  {
    var e := rs[m].endpoint;
    assert Satisfies(server.Collection(e)[x], Pattern(rs[m])) ==> !Moved(rs, m, e, server.Collection(e)[x]);
  }

  /** Once moved, an object does not come back: its place holds the result of a resource from then on. */
  lemma MovedStays(before: Server, after: Server, rs: seq<Resource>, m: nat, e: string, x: nat)
    requires m < |rs| && WritesAlone(before, after, rs, m) && x < |before.Collection(e)| <= |after.Collection(e)|
    requires forall f | f != rs[m].endpoint :: after.Collection(f) == before.Collection(f)
    requires Moved(rs, m, e, before.Collection(e)[x])
    ensures Moved(rs, m + 1, e, after.Collection(e)[x])
  {
    if after.Collection(e)[x] == before.Collection(e)[x] {
      var n :| 0 <= n < m && n < |rs| && rs[n].endpoint == e && Alone(rs, n, before.Collection(e)[x]);
      assert Alone(rs, n, after.Collection(e)[x]);
    } else {
      assert Alone(rs, m, after.Collection(e)[x]);
    }
  }

  /** At the latest with resource i, the object that satisfies its match at the start has been moved. */
  lemma MovedAt(runs: seq<Run>, config: Config, rs: seq<Resource>, i: nat, x: nat)
    requires config.managed && Trace(runs, config, rs) && i < |rs| && ResultsApart(runs[0].server, config.managed, rs)
    requires x < |runs[0].server.Collection(rs[i].endpoint)| && x < |runs[i].server.Collection(rs[i].endpoint)|
    requires Satisfies(runs[0].server.Collection(rs[i].endpoint)[x], Pattern(rs[i]))
    ensures x < |runs[i + 1].server.Collection(rs[i].endpoint)|
    ensures Moved(rs, i + 1, rs[i].endpoint, runs[i + 1].server.Collection(rs[i].endpoint)[x])
  {
    var e := rs[i].endpoint;
    TraceOriginates(runs, config, rs, i);
    TraceEffect(runs, config, rs, i + 1);
    if Satisfies(runs[i].server.Collection(e)[x], Pattern(rs[i])) {
      var values, base, t := StepAlone(runs, config, rs, i);
      WroteWhereFound(runs[i].server, runs[i + 1].server, rs[i], values, base, t, x);
    } else {
      StepWritesAlone(runs, config, rs, i);
      MovedStays(runs[i].server, runs[i + 1].server, rs, i, e, x);
    }
  }

  lemma MovedOn(runs: seq<Run>, config: Config, rs: seq<Resource>, m: nat, e: string, x: nat)
    requires config.managed && Trace(runs, config, rs) && m < |rs| && ResultsApart(runs[0].server, config.managed, rs)
    requires x < |runs[m].server.Collection(e)| && Moved(rs, m, e, runs[m].server.Collection(e)[x])
    ensures x < |runs[m + 1].server.Collection(e)| && Moved(rs, m + 1, e, runs[m + 1].server.Collection(e)[x])
  {
    TraceOriginates(runs, config, rs, m);
    TraceEffect(runs, config, rs, m + 1);
    StepWritesAlone(runs, config, rs, m);
    MovedStays(runs[m].server, runs[m + 1].server, rs, m, e, x);
  }

  lemma {:induction false} MovedFrom(runs: seq<Run>, config: Config, rs: seq<Resource>, m: nat, i: nat, x: nat)
    requires config.managed && Trace(runs, config, rs) && i < m <= |rs|
    requires ResultsApart(runs[0].server, config.managed, rs)
    requires x < |runs[0].server.Collection(rs[i].endpoint)|
    requires Satisfies(runs[0].server.Collection(rs[i].endpoint)[x], Pattern(rs[i]))
    ensures x < |runs[m].server.Collection(rs[i].endpoint)|
    ensures Moved(rs, m, rs[i].endpoint, runs[m].server.Collection(rs[i].endpoint)[x])
    decreases m
  {
    if i + 1 < m {
      MovedFrom(runs, config, rs, m - 1, i, x);
      MovedOn(runs, config, rs, m - 1, rs[i].endpoint, x);
    } else {
      TraceGrows(runs, config, rs, i, rs[i].endpoint);
      MovedAt(runs, config, rs, i, x);
    }
  }

  /** Where the dry run still finds a contested object, the real run finds nothing. */
  lemma ContestedGone(runs: seq<Run>, config: Config, rs: seq<Resource>, i: nat, j: nat)
    requires config.managed && Trace(runs, config, rs) && i < j < |rs|
    requires ResultsApart(runs[0].server, config.managed, rs)
    requires Contested(runs[0].server, rs[i], rs[j])
    requires !Search(runs[0].server.Collection(rs[j].endpoint), Pattern(rs[j])).Many?
    ensures Search(runs[0].server.Collection(rs[j].endpoint), Pattern(rs[j])).One?
    ensures Search(runs[j].server.Collection(rs[j].endpoint), Pattern(rs[j])).Nothing?
  {
    var e := rs[j].endpoint;
    var start := runs[0].server.Collection(e);
    var x :| 0 <= x < |start| && Satisfies(start[x], Pattern(rs[i])) && Satisfies(start[x], Pattern(rs[j]));
    MovedFrom(runs, config, rs, j, i, x);
    TraceOriginates(runs, config, rs, j);
    MovedLeavesNothing(runs[0].server, runs[j].server, rs, j, x);
  }

  /** If the one object that satisfied the match at the start was moved, nothing satisfies it. */
  lemma MovedLeavesNothing(start: Server, server: Server, rs: seq<Resource>, j: nat, x: nat)
    requires j < |rs| && Originated(start, server, rs, j)
        && !Search(start.Collection(rs[j].endpoint), Pattern(rs[j])).Many?
    requires x < |start.Collection(rs[j].endpoint)| && x < |server.Collection(rs[j].endpoint)|
    requires Satisfies(start.Collection(rs[j].endpoint)[x], Pattern(rs[j]))
    requires Moved(rs, j, rs[j].endpoint, server.Collection(rs[j].endpoint)[x])
    ensures Search(start.Collection(rs[j].endpoint), Pattern(rs[j])).One?
    ensures Search(server.Collection(rs[j].endpoint), Pattern(rs[j])).Nothing?
  {
    var now := server.Collection(rs[j].endpoint);
    FoundAt(start.Collection(rs[j].endpoint), Pattern(rs[j]), x);
    forall y | 0 <= y < |now|
      ensures !Satisfies(now[y], Pattern(rs[j]))
    {
      MovedLeavesNone(start, server, rs, j, x, y);
    }
    SearchMeans(now, Pattern(rs[j]));
  }

  lemma MovedLeavesNone(start: Server, server: Server, rs: seq<Resource>, j: nat, x: nat, y: nat)
    requires j < |rs| && Originated(start, server, rs, j)
    requires Search(start.Collection(rs[j].endpoint), Pattern(rs[j])) == One(x)
    requires y < |server.Collection(rs[j].endpoint)| && x < |server.Collection(rs[j].endpoint)|
    requires Moved(rs, j, rs[j].endpoint, server.Collection(rs[j].endpoint)[x])
    ensures !Satisfies(server.Collection(rs[j].endpoint)[y], Pattern(rs[j]))
  {
    OriginMisses(start, server, rs, j, y);
    if Satisfies(server.Collection(rs[j].endpoint)[y], Pattern(rs[j])) {
      FoundAt(start.Collection(rs[j].endpoint), Pattern(rs[j]), y);
    }
  }

  /** The states of a dry run over a plan. */
  ghost predicate DryTrace(dries: seq<Run>, start: Server, config: Config, rs: seq<Resource>) {
    && |dries| == |rs| + 1 && dries[0].server == start
    && forall n | 0 <= n < |rs| :: DryStepAt(dries, config, rs, n)
  }

  ghost predicate DryStepAt(dries: seq<Run>, config: Config, rs: seq<Resource>, n: nat)
    requires n < |rs| && |dries| == |rs| + 1
  {
    ResourceSteps(config, true)(dries[n], rs[n]) == Ok(dries[n + 1])
  }

  lemma DryStep(dries: seq<Run>, config: Config, rs: seq<Resource>, n: nat)
    requires n < |rs| && |dries| == |rs| + 1 && DryStepAt(dries, config, rs, n)
    ensures
      var found := Search(dries[n].server.Collection(rs[n].endpoint), Pattern(rs[n]));
      && dries[n + 1].server == dries[n].server && !found.Many?
      && dries[n + 1].counts.created == dries[n].counts.created + (if found.Nothing? then 1 else 0)
  {
    StepCreates(dries[n], config, rs[n], true);
  }

  lemma {:induction false} DryStays(dries: seq<Run>, start: Server, config: Config, rs: seq<Resource>, m: nat)
    requires DryTrace(dries, start, config, rs) && m <= |rs|
    ensures dries[m].server == start
  {
    if m > 0 {
      DryStays(dries, start, config, rs, m - 1);
      DryStep(dries, config, rs, m - 1);
    }
  }

  /** What the steps of one resource add to the created objects of a dry and a real run. */
  lemma StepsCreate(dries: seq<Run>, runs: seq<Run>, start: Server, config: Config, rs: seq<Resource>, m: nat)
    requires DryTrace(dries, start, config, rs) && Trace(runs, config, rs) && m < |rs|
    ensures
      var e, p := rs[m].endpoint, Pattern(rs[m]);
      && dries[m + 1].counts.created ==
          dries[m].counts.created + (if Search(start.Collection(e), p).Nothing? then 1 else 0)
      && runs[m + 1].counts.created ==
          runs[m].counts.created + (if Search(runs[m].server.Collection(e), p).Nothing? then 1 else 0)
      && !Search(start.Collection(e), p).Many?
  {
    DryStays(dries, start, config, rs, m);
    DryStep(dries, config, rs, m);
    assert StepAt(runs, config, rs, m);
    StepCreates(runs[m], config, rs[m], false);
  }

  /** The real run creates where the dry run does, and where a contested object was taken away. */
  lemma CreatesStep(dries: seq<Run>, runs: seq<Run>, start: Server, config: Config, rs: seq<Resource>, m: nat)
    requires DryTrace(dries, start, config, rs) && Trace(runs, config, rs) && m < |rs|
    requires start.collections == runs[0].server.collections && ResultsApart(runs[0].server, config.managed, rs)
    ensures runs[m + 1].counts.created - runs[m].counts.created >= dries[m + 1].counts.created - dries[m].counts.created
    ensures config.managed && (exists i | 0 <= i < m :: Contested(runs[0].server, rs[i], rs[m])) ==>
        runs[m + 1].counts.created - runs[m].counts.created > dries[m + 1].counts.created - dries[m].counts.created
  {
    StepsCreate(dries, runs, start, config, rs, m);
    assert start.Collection(rs[m].endpoint) == runs[0].server.Collection(rs[m].endpoint);
    if Search(start.Collection(rs[m].endpoint), Pattern(rs[m])).Nothing? {
      TraceOriginates(runs, config, rs, m);
      NothingStays(runs[0].server, runs[m].server, rs, m);
    }
    if config.managed && (exists i | 0 <= i < m :: Contested(runs[0].server, rs[i], rs[m])) {
      var i :| 0 <= i < m && Contested(runs[0].server, rs[i], rs[m]);
      ContestedGone(runs, config, rs, i, m);
    }
  }

  /** Amounts that a step never lowers, and raises at step j. */
  lemma {:induction false} Accumulated(amounts: seq<int>, m: nat, j: nat)
    requires m < |amounts| && forall n | 0 <= n < m :: amounts[n] <= amounts[n + 1]
    requires j < m ==> amounts[j] < amounts[j + 1]
    ensures amounts[0] + (if j < m then 1 else 0) <= amounts[m]
  {
    if m > 0 {
      Accumulated(amounts, m - 1, j);
    }
  }

  /** How many objects more the real run has created. */
  function Surplus(dries: seq<Run>, runs: seq<Run>): (amounts: seq<int>)
    requires |dries| == |runs|
  {
    seq(|runs|, n requires 0 <= n < |runs| => runs[n].counts.created - dries[n].counts.created)
  }

  lemma CreatesMore(dries: seq<Run>, runs: seq<Run>, start: Server, config: Config, rs: seq<Resource>, i: nat, j: nat)
    requires DryTrace(dries, start, config, rs) && Trace(runs, config, rs) && config.managed
    requires start.collections == runs[0].server.collections && ResultsApart(runs[0].server, config.managed, rs)
    requires i < j < |rs| && Contested(runs[0].server, rs[i], rs[j])
    ensures runs[0].counts.created - dries[0].counts.created < runs[|rs|].counts.created - dries[|rs|].counts.created
  {
    var amounts := Surplus(dries, runs);
    forall m | 0 <= m < |rs|
      ensures amounts[m] <= amounts[m + 1] && (m == j ==> amounts[m] < amounts[m + 1])
    {
      CreatesStep(dries, runs, start, config, rs, m);
    }
    Accumulated(amounts, |rs|, j);
  }

  lemma ResourcesMiscount(server: Server, dry: Run, live: Run, config: Config, rs: seq<Resource>, i: nat, j: nat)
    requires dry.server == server && server.collections == live.server.collections && live.server.Valid()
    requires config.managed && (forall n | 0 <= n < |rs| :: Keyed(rs[n]))
    requires ResultsApart(live.server, config.managed, rs)
    requires i < j < |rs| && Contested(live.server, rs[i], rs[j])
    requires RunResources(dry, config, rs, true).Ok? && RunResources(live, config, rs, false).Ok?
    ensures
      var d, w := RunResources(dry, config, rs, true).value, RunResources(live, config, rs, false).value;
      live.counts.created - dry.counts.created < w.counts.created - d.counts.created
  {
    var dries := FoldTrace(ResourceSteps(config, true), dry, rs);
    var runs := RunTrace(live, config, rs);
    CreatesMore(dries, runs, server, config, rs, i, j);
  }

  /** A stored object that satisfies two matches makes a managed run create more than its dry run said. */
  lemma ContestedMiscounts(server: Server, config: Config, i: nat, j: nat)
    requires config.managed && server.Valid() && Orderly(config)
    requires ResultsApart(server, config.managed, config.resources)
    requires i < j < |config.resources| && Contested(server, config.resources[i], config.resources[j])
    requires RunAll(server, config, true).Ok? && RunAll(server, config, false).Ok?
    ensures RunAll(server, config, false).value.counts.created > RunAll(server, config, true).value.counts.created
  {
    var rs := config.resources;
    PoliciesLeaveObjects(Start(server), config, config.policies, true);
    PoliciesLeaveObjects(Start(server), config, config.policies, false);
    var dry := RunPolicies(Start(server), config, config.policies, true).value;
    var live := RunPolicies(Start(server), config, config.policies, false).value;
    SettledPolicies(server, config);
    assert Contested(live.server, rs[i], rs[j]) by {
      assert live.server.Collection(rs[i].endpoint) == server.Collection(rs[i].endpoint);
    }
    ResourcesMiscount(server, dry, live, config, rs, i, j);
  }

  /**
   * The exact condition. When both runs succeed, their counts agree if and only if the run is not managed or no
   * stored object satisfies the matches of two resources.
   */
  lemma CountsAgreeExactly(server: Server, config: Config)
    requires server.Valid() && Orderly(config) && ResultsApart(server, config.managed, config.resources)
    requires forall r | r in config.resources :: Predictable(r) && Unmarked(server, r)
    requires RunAll(server, config, true).Ok? && RunAll(server, config, false).Ok?
    ensures RunAll(server, config, true).value.counts == RunAll(server, config, false).value.counts <==>
        (config.managed ==> Uncontested(server, config.resources))
  {
    if config.managed && !Uncontested(server, config.resources) {
      var i, j :| 0 <= i < j < |config.resources| && Contested(server, config.resources[i], config.resources[j]);
      ContestedMiscounts(server, config, i, j);
    } else {
      DryRunPredicts(server, config);
    }
  }

  // ---------------------------------------------------------------- a plan that is miscounted

  const STORED: Object := map["id" := Num(1), "name" := Str("a"), "path" := Str("p")]
  const MOVER := Resource("rootfolder", map["name" := "a"], map["path" := Str("q")])
  const OTHER := Resource("rootfolder", map["path" := "p"], map["name" := Str("b")])

  lemma MoversDeclare()
    ensures Declared(MOVER) == map["path" := Str("q"), "name" := Str("a")]
    ensures Declared(OTHER) == map["path" := Str("p"), "name" := Str("b")]
    ensures Pattern(MOVER) == map["name" := Str("a")] && Pattern(OTHER) == map["path" := Str("p")]
    ensures Satisfies(STORED, Pattern(MOVER)) && Satisfies(STORED, Pattern(OTHER))
    ensures !Satisfies(STORED + Declared(MOVER), Pattern(OTHER))
  {
    assert Declared(MOVER) == map["path" := Str("q"), "name" := Str("a")];
    assert Declared(OTHER) == map["path" := Str("p"), "name" := Str("b")];
    assert Pattern(MOVER) == map["name" := Str("a")] && Pattern(OTHER) == map["path" := Str("p")];
    assert "path" in Pattern(OTHER) && Get(STORED + Declared(MOVER), "path") != Pattern(OTHER)["path"];
  }

  /** Each declares another value for the key that the other is matched by, and both match the stored object. */
  lemma MoversContest(server: Server, managed: bool)
    requires server.Collection("rootfolder") == [STORED]
    ensures ResultsApart(server, managed, [MOVER, OTHER]) && Contested(server, MOVER, OTHER)
  {
    MoversDeclare();
    var rs := [MOVER, OTHER];
    forall i, j | 0 <= i < |rs| && 0 <= j < |rs| && i != j && rs[i].endpoint == rs[j].endpoint
      ensures exists key | key in Pattern(rs[j]) ::
          key in Declared(rs[i]) && Declared(rs[i])[key] != Pattern(rs[j])[key]
    {
      assert "name" in Pattern(MOVER) && "path" in Pattern(OTHER);
    }
    LiteralsApart(server, managed, rs);
    assert server.Collection("rootfolder")[0] == STORED;
  }

  lemma MoversAreOrderly(config: Config)
    requires config.policies == [] && config.resources == [MOVER, OTHER]
    ensures Orderly(config)
  {
    assert Keyed(MOVER) && Keyed(OTHER);
  }

  /**
   * It is not enough that no resource's result satisfies another's match. Here both resources match the one
   * stored object at first, and the first moves it away: the dry run updates twice, the real run creates.
   */
  lemma ResultsApartIsNotEnough()
    ensures
      var server := Server(map[], map["rootfolder" := [STORED]], map[], 2);
      var config := Config(true, false, [], [MOVER, OTHER]);
      var dry, live := RunAll(server, config, true), RunAll(server, config, false);
      && Orderly(config) && ResultsApart(server, config.managed, config.resources) && Contested(server, MOVER, OTHER)
      && dry.Ok? && dry.value.counts == Counts(0, 2, 0)
      && live.Ok? && live.value.counts == Counts(1, 1, 0)
  {
    var server := Server(map[], map["rootfolder" := [STORED]], map[], 2);
    var config := Config(true, false, [], [MOVER, OTHER]);
    MoversAreOrderly(config);
    MoversContest(server, true);
    MovedByFirst(server, config, true);
    MovedByFirst(server, config, false);
  }

  /** A declaration of strings and numbers only. */
  predicate Plain(values: Object) {
    forall key | key in values :: values[key].Str? || values[key].Num?
  }

  lemma PlainValues(server: Server, planned: set<Lookup>, r: Resource)
    requires Plain(Declared(r)) && "_lookup" !in Declared(r)
    ensures ValuesOf(server, planned, r) == Ok(Declared(r)) && PlannedLookups(server, planned, r) == {}
  {
    var declared := Declared(r);
    assert forall key | key in declared :: Resolve(server, planned, declared[key]) == Ok(declared[key]);
    assert ValuesOf(server, planned, r).value == declared;
    assert Lookups(Obj(declared)) == {};
  }

  lemma PlainMerge(values: Object, base: Object)
    requires Plain(values)
    ensures Merge(base, values) == Ok(base + values)
  {
    assert forall key | key in values :: MergeAt(base, key, values[key]) == Ok(values[key]);
    MergeIs(base, values, base + values);
  }

  /** A step over a collection of one object that satisfies the match, or does not. */
  lemma StepOnOne(run: Run, config: Config, r: Resource, stored: Object, dry: bool)
    requires config.managed && Supported(config, r) && run.server.Collection(r.endpoint) == [stored]
    requires Plain(Declared(r)) && "_lookup" !in Declared(r) && "implementation" !in Declared(r) && "id" in stored
    ensures
      var next := Apply(run, config, r, dry);
      && next.Ok?
      && (!Satisfies(stored, Pattern(r)) ==> next.value.counts == run.counts.(created := run.counts.created + 1))
      && (Satisfies(stored, Pattern(r)) && stored + Declared(r) != stored ==>
          && next.value.counts == run.counts.(updated := run.counts.updated + 1)
          && next.value.server == if dry then run.server
              else run.server.Put(r.endpoint, stored["id"], stored + Declared(r)))
  {
    PlainValues(run.server, PlannedBy(run, dry), r);
    PlainMerge(Declared(r), stored);
    PlainMerge(Declared(r), map[]);
    SearchMeans([stored], Pattern(r));
  }

  lemma MovedByFirst(server: Server, config: Config, dry: bool)
    requires server == Server(map[], map["rootfolder" := [STORED]], map[], 2)
    requires config == Config(true, false, [], [MOVER, OTHER])
    ensures RunAll(server, config, dry).Ok?
    ensures RunAll(server, config, dry).value.counts == if dry then Counts(0, 2, 0) else Counts(1, 1, 0)
  {
    MoversDeclare();
    assert "name" in MOVER.match_ && "path" in OTHER.match_;
    assert (STORED + Declared(MOVER))["path"] != STORED["path"] && (STORED + Declared(OTHER))["name"] != STORED["name"];
    StepOnOne(Start(server), config, MOVER, STORED, dry);
    var once := Apply(Start(server), config, MOVER, dry).value;
    var now := if dry then STORED else STORED + Declared(MOVER);
    assert once.server.Collection("rootfolder") == [now];
    StepOnOne(once, config, OTHER, now, dry);
    TwoSteps(server, config, MOVER, OTHER, dry);
  }

  lemma TwoSteps(server: Server, config: Config, first: Resource, second: Resource, dry: bool)
    requires config.policies == [] && config.resources == [first, second]
    ensures
      var once := Apply(Start(server), config, first, dry);
      RunAll(server, config, dry) == if once.Ok? then Apply(once.value, config, second, dry) else Err
  {
    var step := ResourceSteps(config, dry);
    assert [first, second][..1] == [first] && [first][..0] == [];
    assert Fold(step, Start(server), [first]) == step(Start(server), first);
  }
}
