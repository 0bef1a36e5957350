/**
 * Bazarr's language profiles. The server replaces the whole collection, so the adapter sends every profile back, with
 * the declared ones updated in place or appended under fresh ids.
 */
module LanguageProfiles {
  import opened JsonValues
  import opened Objects

  datatype Decl = Decl(name: string, fields: Object)

  const ALLOWED: set<string> := {"items", "cutoff", "mustContain", "mustNotContain", "originalFormat", "tag"}

  const DEFAULTS: Object := map[
    "cutoff" := Null, "mustContain" := Str(""), "mustNotContain" := Str(""), "originalFormat" := Bool(false),
    "tag" := Null
  ]

  function ById(o: Object): Json {
    Get(o, "profileId")
  }

  function ByName(name: string): Object {
    map["name" := Str(name)]
  }

  predicate Numbered(profiles: seq<Object>) {
    forall i | 0 <= i < |profiles| :: ById(profiles[i]).Num?
  }

  predicate DistinctIds(profiles: seq<Object>) {
    forall i, j | 0 <= i < j < |profiles| :: ById(profiles[i]) != ById(profiles[j])
  }

  predicate DistinctNames(decls: seq<Decl>) {
    forall i, j | 0 <= i < j < |decls| :: decls[i].name != decls[j].name
  }

  function NewProfile(d: Decl, id: int): Object {
    DEFAULTS["profileId" := Num(id)]["name" := Str(d.name)] + d.fields
  }

  /** The collection after one declaration. */
  function Place(profiles: seq<Object>, id: int, d: Decl): Result<seq<Object>> {
    var found := Search(profiles, ByName(d.name));
    if !(d.fields.Keys <= ALLOWED) || found.Many? then Err
    else if found.One? then Ok(profiles[found.index := profiles[found.index] + d.fields])
    else if Truthy(Get(d.fields, "items")) then Ok(profiles + [NewProfile(d, id)])
    else Err
  }

  function NextId(before: seq<Object>, after: seq<Object>, id: int): int {
    if |after| > |before| then id + 1 else id
  }

  /** The collection after all declarations in their order. */
  function Plan(profiles: seq<Object>, id: int, decls: seq<Decl>): Result<seq<Object>>
    decreases |decls|
  {
    if decls == [] then Ok(profiles)
    else
      var placed :- Place(profiles, id, decls[0]);
      Plan(placed, NextId(profiles, placed, id), decls[1..])
  }

  /** The id above all others, one for an empty collection. */
  method FreshId(profiles: seq<Object>) returns (id: int)
    requires Numbered(profiles)
    ensures forall i | 0 <= i < |profiles| :: ById(profiles[i]).n < id
    ensures if profiles == [] then id == 1 else exists i | 0 <= i < |profiles| :: ById(profiles[i]).n == id - 1
  {
    if profiles == [] {
      return 1;
    }
    var best := 0;
    for i := 1 to |profiles|
      invariant 0 <= best < |profiles|
      invariant forall j | 0 <= j < i :: ById(profiles[j]).n <= ById(profiles[best]).n
    {
      if ById(profiles[i]).n > ById(profiles[best]).n {
        best := i;
      }
    }
    id := ById(profiles[best]).n + 1;
  }

  /** The loop over the declarations, updating and appending in place; nothing is sent when nothing changed. */
  method Reconcile(profiles: seq<Object>, decls: seq<Decl>) returns (desired: Result<seq<Object>>, id: int,
        changed: bool)
    requires Numbered(profiles)
    ensures forall i | 0 <= i < |profiles| :: ById(profiles[i]).n < id
    ensures desired == Plan(profiles, id, decls)
    ensures changed <==> desired.Ok? && desired.value != profiles
  {
    id := FreshId(profiles);
    var next := id;
    var result := profiles;
    changed := false;
    for n := 0 to |decls|
      invariant Plan(profiles, id, decls) == Plan(result, next, decls[n..])
    {
      var d := decls[n];
      assert decls[n..][0] == d && decls[n..][1..] == decls[n + 1..];
      var found := Search(result, ByName(d.name));
      if !(d.fields.Keys <= ALLOWED) || found.Many? {
        return Err, id, false;
      }
      if found.One? {
        result := result[found.index := result[found.index] + d.fields];
      } else {
        if !Truthy(Get(d.fields, "items")) {
          return Err, id, false;
        }
        result := result + [NewProfile(d, next)];
        next := next + 1;
      }
    }
    desired := Ok(result);
    changed := result != profiles;
  }

  // ---------------------------------------------------------------- what the plan means

  /** Exactly one profile of the name, with all declared fields. */
  predicate Placed(profiles: seq<Object>, d: Decl) {
    var found := Search(profiles, ByName(d.name));
    found.One? && Carries(profiles[found.index], d)
  }

  predicate Carries(o: Object, d: Decl) {
    forall key | key in d.fields :: key in o && o[key] == d.fields[key]
  }

  predicate Declares(decls: seq<Decl>, name: Json) {
    exists k | 0 <= k < |decls| :: name == Str(decls[k].name)
  }

  /** A field is declared for a profile of this name. */
  predicate DeclaresField(decls: seq<Decl>, name: Json, key: string) {
    exists k | 0 <= k < |decls| :: name == Str(decls[k].name) && key in decls[k].fields
  }

  /** Existing profiles stay in place but for their declared fields; every further one is new for a declaration. */
  ghost predicate Kept(before: seq<Object>, after: seq<Object>, decls: seq<Decl>) {
    && |before| <= |after|
    && (forall i | 0 <= i < |before| :: KeptAt(before[i], after[i], decls))
    && (forall i | |before| <= i < |after| :: IsNew(after[i], decls))
  }

  /** The id and the name stay, and every field that is not declared for this profile. */
  ghost predicate KeptAt(before: Object, after: Object, decls: seq<Decl>) {
    && ById(after) == ById(before) && Get(after, "name") == Get(before, "name")
    && (after == before || Declares(decls, Get(before, "name")))
    && (forall key | !DeclaresField(decls, Get(before, "name"), key) :: Get(after, key) == Get(before, key))
  }

  /** The profile is made of a declaration and the defaults. */
  predicate IsNew(o: Object, decls: seq<Decl>) {
    ById(o).Num? && exists k | 0 <= k < |decls| :: NewFor(o, decls[k])
  }

  /** Declared fields win; the other five fields have their defaults. */
  predicate NewFor(o: Object, d: Decl) {
    && Get(o, "name") == Str(d.name) && Carries(o, d)
    && o.Keys == d.fields.Keys
      + {"profileId", "name", "cutoff", "mustContain", "mustNotContain", "originalFormat", "tag"}
    && ("cutoff" !in d.fields ==> o["cutoff"] == Null)
    && ("mustContain" !in d.fields ==> o["mustContain"] == Str(""))
    && ("mustNotContain" !in d.fields ==> o["mustNotContain"] == Str(""))
    && ("originalFormat" !in d.fields ==> o["originalFormat"] == Bool(false))
    && ("tag" !in d.fields ==> o["tag"] == Null)
  }

  lemma NameMeans(o: Object, name: string)
    ensures Satisfies(o, ByName(name)) <==> Get(o, "name") == Str(name)
  {
    assert "name" in ByName(name);
  }

  /** The place of a declaration, found or new. */
  function Spot(profiles: seq<Object>, d: Decl): nat {
    var found := Search(profiles, ByName(d.name));
    if found.One? then found.index else |profiles|
  }

  lemma FieldsAllowed(d: Decl)
    requires d.fields.Keys <= ALLOWED
    ensures "profileId" !in d.fields && "name" !in d.fields
  {
    assert "profileId" !in ALLOWED && "name" !in ALLOWED;
  }

  lemma PlacedThere(profiles: seq<Object>, id: int, d: Decl)
    requires Place(profiles, id, d).Ok?
    ensures
      var placed := Place(profiles, id, d).value;
      Search(placed, ByName(d.name)) == One(Spot(profiles, d)) && Get(placed[Spot(profiles, d)], "name") == Str(d.name)
  {
    var placed := Place(profiles, id, d).value;
    SearchMeans(profiles, ByName(d.name));
    SearchMeans(placed, ByName(d.name));
    FieldsAllowed(d);
    forall i | 0 <= i < |placed|
      ensures Satisfies(placed[i], ByName(d.name)) <==> i == Spot(profiles, d)
    {
      NameMeans(placed[i], d.name);
      if i < |profiles| {
        NameMeans(profiles[i], d.name);
      }
    }
  }

  /** Ids stay distinct and below the next one. */
  lemma PlaceIds(profiles: seq<Object>, id: int, d: Decl)
    requires Numbered(profiles) && DistinctIds(profiles) && forall i | 0 <= i < |profiles| :: ById(profiles[i]).n < id
    requires Place(profiles, id, d).Ok?
    ensures
      var placed := Place(profiles, id, d).value;
      Numbered(placed) && DistinctIds(placed) && forall i | 0 <= i < |placed| ::
          ById(placed[i]).n < NextId(profiles, placed, id)
  {
    var placed := Place(profiles, id, d).value;
    FieldsAllowed(d);
    forall i | 0 <= i < |placed|
      ensures ById(placed[i]) == if i < |profiles| then ById(profiles[i]) else Num(id)
    {
    }
  }

  /** One declaration keeps the others. */
  lemma PlaceKeeps(profiles: seq<Object>, id: int, d: Decl)
    requires Place(profiles, id, d).Ok?
    ensures Kept(profiles, Place(profiles, id, d).value, [d])
  {
    var placed := Place(profiles, id, d).value;
    var found := Search(profiles, ByName(d.name));
    if found.One? {
      SearchMeans(profiles, ByName(d.name));
      NameMeans(profiles[found.index], d.name);
      PatchedProfile(profiles[found.index], d);
      forall i | 0 <= i < |profiles|
        ensures KeptAt(profiles[i], placed[i], [d])
      {
      }
    } else {
      AppendedProfile(d, id);
    }
  }

  lemma AppendedProfile(d: Decl, id: int)
    requires d.fields.Keys <= ALLOWED
    ensures IsNew(NewProfile(d, id), [d])
  {
    FieldsAllowed(d);
    assert [d][0] == d;
    assert ById(NewProfile(d, id)) == Num(id) && NewFor(NewProfile(d, id), d);
  }

  lemma PatchedProfile(o: Object, d: Decl)
    requires d.fields.Keys <= ALLOWED && Get(o, "name") == Str(d.name)
    ensures KeptAt(o, o + d.fields, [d])
  {
    FieldsAllowed(d);
    assert [d][0] == d;
    forall key | !DeclaresField([d], Get(o, "name"), key)
      ensures Get(o + d.fields, key) == Get(o, key)
    {
      assert Get(o, "name") == Str([d][0].name);
    }
  }

  /** The declaration itself is placed. */
  lemma PlaceMeans(profiles: seq<Object>, id: int, d: Decl)
    requires Place(profiles, id, d).Ok?
    ensures Placed(Place(profiles, id, d).value, d)
  {
    PlacedThere(profiles, id, d);
  }

  /** A declaration for one name is not felt by another. */
  lemma OtherName(profiles: seq<Object>, id: int, d: Decl, other: string)
    requires Place(profiles, id, d).Ok? && other != d.name
    ensures SameSearch(profiles, Place(profiles, id, d).value, ByName(other))
  {
    var placed := Place(profiles, id, d).value;
    var found := Search(profiles, ByName(d.name));
    SearchMeans(profiles, ByName(d.name));
    assert "name" !in ALLOWED && "name" !in d.fields;
    var at := if found.One? then found.index else |profiles|;
    NameMeans(placed[at], other);
    if at < |profiles| {
      NameMeans(profiles[at], other);
      NameMeans(profiles[at], d.name);
    }
    SearchUndisturbed(profiles, placed, at, ByName(other));
  }

  /** Only the six fields are declared, and a new profile has languages. */
  predicate Acceptable(d: Decl, found: bool) {
    && (forall key | key in d.fields ::
      key == "items" || key == "cutoff" || key == "mustContain" || key == "mustNotContain"
      || key == "originalFormat" || key == "tag")
    && (found || ("items" in d.fields &&
      d.fields["items"] !in {Null, Bool(false), Num(0), Str(""), Arr([]), Obj(map[])}))
  }

  lemma AcceptableMeans(d: Decl, found: bool)
    ensures Acceptable(d, found) <==> d.fields.Keys <= ALLOWED && (found || Truthy(Get(d.fields, "items")))
  {
    assert d.fields.Keys <= ALLOWED <==> forall key | key in d.fields :: key in ALLOWED;
  }

  /** When a plan can be made at all. */
  predicate Plannable(profiles: seq<Object>, decls: seq<Decl>) {
    forall k | 0 <= k < |decls| :: PlannableAt(profiles, decls[k])
  }

  predicate PlannableAt(profiles: seq<Object>, d: Decl) {
    var found := Search(profiles, ByName(d.name));
    !found.Many? && Acceptable(d, found.One?)
  }

  lemma FieldsOfAll(d: Decl, rest: seq<Decl>, name: Json, key: string)
    ensures DeclaresField([d] + rest, name, key) <==>
        (name == Str(d.name) && key in d.fields) || DeclaresField(rest, name, key)
    ensures DeclaresField([d], name, key) <==> name == Str(d.name) && key in d.fields
  {
    var decls := [d] + rest;
    assert decls[0] == d && [d][0] == d;
    if DeclaresField(rest, name, key) {
      var k :| 0 <= k < |rest| && name == Str(rest[k].name) && key in rest[k].fields;
      assert decls[k + 1] == rest[k];
    }
    if DeclaresField(decls, name, key) {
      var k :| 0 <= k < |decls| && name == Str(decls[k].name) && key in decls[k].fields;
      assert k > 0 ==> decls[k] == rest[k - 1];
    }
  }

  lemma DeclaredByAll(d: Decl, rest: seq<Decl>, name: Json)
    ensures Declares([d] + rest, name) <==> name == Str(d.name) || Declares(rest, name)
    ensures Declares([d], name) <==> name == Str(d.name)
  {
    var decls := [d] + rest;
    assert decls[0] == d && [d][0] == d;
    if Declares(rest, name) {
      var k :| 0 <= k < |rest| && name == Str(rest[k].name);
      assert decls[k + 1] == rest[k];
    }
    if Declares(decls, name) {
      var k :| 0 <= k < |decls| && name == Str(decls[k].name);
      assert k > 0 ==> decls[k] == rest[k - 1];
    }
  }

  lemma KeptAtTwice(a: Object, b: Object, c: Object, d: Decl, rest: seq<Decl>)
    requires KeptAt(a, b, [d]) && KeptAt(b, c, rest)
    ensures KeptAt(a, c, [d] + rest)
  {
    DeclaredByAll(d, rest, Get(a, "name"));
    forall key | !DeclaresField([d] + rest, Get(a, "name"), key)
      ensures Get(c, key) == Get(a, key)
    {
      FieldsOfAll(d, rest, Get(a, "name"), key);
    }
  }

  lemma NewByAll(o: Object, d: Decl, rest: seq<Decl>)
    ensures IsNew(o, [d]) || IsNew(o, rest) ==> IsNew(o, [d] + rest)
  {
    var decls := [d] + rest;
    if IsNew(o, [d]) {
      assert decls[0] == d && NewFor(o, decls[0]);
    } else if IsNew(o, rest) {
      var k :| 0 <= k < |rest| && NewFor(o, rest[k]);
      assert decls[k + 1] == rest[k] && NewFor(o, decls[k + 1]);
    }
  }

  lemma KeptTwice(a: seq<Object>, b: seq<Object>, c: seq<Object>, d: Decl, rest: seq<Decl>)
    requires Kept(a, b, [d]) && Kept(b, c, rest) && !Declares(rest, Str(d.name))
    ensures Kept(a, c, [d] + rest)
  {
    forall i | 0 <= i < |a|
      ensures KeptAt(a[i], c[i], [d] + rest)
    {
      KeptAtTwice(a[i], b[i], c[i], d, rest);
    }
    forall i | |a| <= i < |c|
      ensures IsNew(c[i], [d] + rest)
    {
      if i < |b| {
        assert IsNew(b[i], [d]) && KeptAt(b[i], c[i], rest);
      }
      NewByAll(c[i], d, rest);
    }
  }

  /** Placing one declaration changes nothing about whether the others can be placed. */
  lemma PlannableStep(profiles: seq<Object>, id: int, decls: seq<Decl>)
    requires DistinctNames(decls) && decls != []
    ensures Plannable(profiles, decls) <==>
      Place(profiles, id, decls[0]).Ok? && Plannable(Place(profiles, id, decls[0]).value, decls[1..])
  {
    AcceptableMeans(decls[0], Search(profiles, ByName(decls[0].name)).One?);
    assert PlannableAt(profiles, decls[0]) <==> Place(profiles, id, decls[0]).Ok?;
    if Place(profiles, id, decls[0]).Ok? {
      var placed := Place(profiles, id, decls[0]).value;
      var rest := decls[1..];
      forall k | 0 <= k < |rest|
        ensures PlannableAt(profiles, decls[k + 1]) <==> PlannableAt(placed, rest[k])
      {
        OtherName(profiles, id, decls[0], decls[k + 1].name);
      }
      if Plannable(placed, rest) {
        forall k | 0 <= k < |decls|
          ensures PlannableAt(profiles, decls[k])
        {
          if k > 0 {
            assert PlannableAt(placed, rest[k - 1]);
          }
        }
      }
      if Plannable(profiles, decls) {
        forall k | 0 <= k < |rest|
          ensures PlannableAt(placed, rest[k])
        {
          assert PlannableAt(profiles, decls[k + 1]);
        }
      }
    }
  }

  /** Searches for names that are not declared give the same profile. */
  ghost predicate OthersFound(before: seq<Object>, after: seq<Object>, decls: seq<Decl>) {
    forall other: string | !Declares(decls, Str(other)) :: SameSearch(before, after, ByName(other))
  }

  lemma DeclaresMore(decls: seq<Decl>, name: Json)
    requires decls != []
    ensures Declares(decls[1..], name) ==> Declares(decls, name)
  {
    if Declares(decls[1..], name) {
      var k :| 0 <= k < |decls[1..]| && name == Str(decls[1..][k].name);
      assert decls[k + 1] == decls[1..][k];
    }
  }

  lemma OthersStep(profiles: seq<Object>, placed: seq<Object>, desired: seq<Object>, id: int, decls: seq<Decl>)
    requires decls != [] && Place(profiles, id, decls[0]) == Ok(placed) && OthersFound(placed, desired, decls[1..])
    ensures OthersFound(profiles, desired, decls)
  {
    forall other: string | !Declares(decls, Str(other))
      ensures SameSearch(profiles, desired, ByName(other))
    {
      DeclaresMore(decls, Str(other));
      assert Str(other) != Str(decls[0].name);
      OtherName(profiles, id, decls[0], other);
    }
  }

  /**
   * The whole update: it succeeds just when it can; then positions, ids, names, undeclared profiles and undeclared
   * fields of declared ones are kept, new profiles have the defaults, all ids are distinct, and every declared name
   * occurs exactly once with its declared fields.
   */
  lemma {:induction false} PlanMeans(profiles: seq<Object>, id: int, decls: seq<Decl>)
    requires DistinctNames(decls) && Numbered(profiles) && DistinctIds(profiles)
    requires forall i | 0 <= i < |profiles| :: ById(profiles[i]).n < id
    ensures Plan(profiles, id, decls).Ok? <==> Plannable(profiles, decls)
    ensures Plan(profiles, id, decls).Ok? ==>
      var desired := Plan(profiles, id, decls).value;
      && Kept(profiles, desired, decls) && DistinctIds(desired) && Numbered(desired)
      && forall k | 0 <= k < |decls| :: Placed(desired, decls[k])
    ensures Plan(profiles, id, decls).Ok? ==> OthersFound(profiles, Plan(profiles, id, decls).value, decls)
    decreases |decls|
  {
    if decls != [] {
      var d, rest := decls[0], decls[1..];
      PlannableStep(profiles, id, decls);
      if Place(profiles, id, d).Ok? {
        var placed := Place(profiles, id, d).value;
        PlaceIds(profiles, id, d);
        PlaceKeeps(profiles, id, d);
        PlaceMeans(profiles, id, d);
        PlanMeans(placed, NextId(profiles, placed, id), rest);
        if Plan(profiles, id, decls).Ok? {
          PlanStep(profiles, placed, Plan(profiles, id, decls).value, id, decls);
        }
      }
    }
  }

  lemma PlanStep(profiles: seq<Object>, placed: seq<Object>, desired: seq<Object>, id: int, decls: seq<Decl>)
    requires DistinctNames(decls) && decls != [] && Place(profiles, id, decls[0]) == Ok(placed)
    requires Kept(profiles, placed, [decls[0]]) && Kept(placed, desired, decls[1..]) && Placed(placed, decls[0])
    requires OthersFound(placed, desired, decls[1..]) && forall k | 0 <= k < |decls[1..]| ::
        Placed(desired, decls[1..][k])
    ensures Kept(profiles, desired, decls) && OthersFound(profiles, desired, decls)
    ensures forall k | 0 <= k < |decls| :: Placed(desired, decls[k])
  {
    var d, rest := decls[0], decls[1..];
    assert decls == [d] + rest;
    assert !Declares(rest, Str(d.name));
    KeptTwice(profiles, placed, desired, d, rest);
    OthersStep(profiles, placed, desired, id, decls);
    forall k | 0 <= k < |decls|
      ensures Placed(desired, decls[k])
    {
      if k > 0 {
        assert decls[k] == rest[k - 1];
      }
    }
  }

  /** Placing a declaration that is placed already changes nothing. */
  lemma PlaceAgain(profiles: seq<Object>, id: int, d: Decl)
    requires Placed(profiles, d) && d.fields.Keys <= ALLOWED
    ensures Place(profiles, id, d) == Ok(profiles)
  {
    var i := Search(profiles, ByName(d.name)).index;
    assert forall key | key in d.fields :: key in profiles[i] && profiles[i][key] == d.fields[key];
    assert profiles[i] + d.fields == profiles[i];
    assert profiles[i := profiles[i]] == profiles;
  }

  lemma {:induction false} PlanAgain(profiles: seq<Object>, id: int, decls: seq<Decl>)
    requires forall k | 0 <= k < |decls| :: Placed(profiles, decls[k]) && decls[k].fields.Keys <= ALLOWED
    ensures Plan(profiles, id, decls) == Ok(profiles)
    decreases |decls|
  {
    if decls != [] {
      PlaceAgain(profiles, id, decls[0]);
      assert forall k | 0 <= k < |decls[1..]| :: decls[1..][k] == decls[k + 1];
      PlanAgain(profiles, id, decls[1..]);
    }
  }

  /** A second run, on what the first one sent, submits no profile change. */
  method ReconcileTwice(profiles: seq<Object>, decls: seq<Decl>) returns (first: Result<seq<Object>>, again: bool)
    requires DistinctNames(decls) && Numbered(profiles) && DistinctIds(profiles)
    ensures first.Ok? <==> Plannable(profiles, decls)
    ensures first.Ok? ==> Kept(profiles, first.value, decls) && DistinctIds(first.value) && Numbered(first.value)
    ensures first.Ok? ==> forall k | 0 <= k < |decls| :: Placed(first.value, decls[k])
    ensures !again
  {
    var id, changed;
    first, id, changed := Reconcile(profiles, decls);
    PlanMeans(profiles, id, decls);
    again := false;
    if first.Ok? {
      var second, next;
      second, next, again := Reconcile(first.value, decls);
      forall k | 0 <= k < |decls|
        ensures decls[k].fields.Keys <= ALLOWED
      {
        assert PlannableAt(profiles, decls[k]);
        AcceptableMeans(decls[k], Search(profiles, ByName(decls[k].name)).One?);
      }
      PlanAgain(first.value, next, decls);
    }
  }
}
