/**
 * What a plan of resources asks of a server: which objects its resources may write, and when the object written for
 * one resource can be taken for that of another.
 */
module ArrPlans {
  import opened JsonValues
  import opened Objects
  import opened ArrManager

  /** Objects that lookups can name are matched by exactly the key lookups use, and ids are left to the server. */
  predicate Keyed(r: Resource) {
    && (r.endpoint in LOOKUP_ENDPOINTS ==> r.match_.Keys == {LookupKey(r.endpoint)})
    && "id" !in r.values
  }

  /** Every resource is keyed, and each settings section is declared once and holds plain values. */
  ghost predicate Orderly(config: Config) {
    && (forall r | r in config.resources :: Keyed(r))
    && (forall i, key | 0 <= i < |config.policies| && key in config.policies[i].declared ::
        !config.policies[i].declared[key].Obj?)
    && (forall i, j | 0 <= i < j < |config.policies| :: config.policies[i].endpoint != config.policies[j].endpoint)
  }

  // ---------------------------------------------------------------- what a resource may write

  /** What a new object may start from: nothing, or a schema of the declared implementation. */
  ghost predicate IsTemplate(server: Server, r: Resource, base: Object) {
    if "implementation" in Declared(r) then
      exists k | 0 <= k < |server.Schemas(r.endpoint)| ::
        && base == server.Schemas(r.endpoint)[k]
        && (Declared(r)["implementation"].Str? ==> Get(base, "implementation") == Declared(r)["implementation"])
    else base == map[]
  }

  /**
   * What the resource may be merged into: a template, or in a managed run a stored object that satisfies its match.
   */
  ghost predicate IsBase(server: Server, managed: bool, r: Resource, base: Object) {
    || (managed && exists k | 0 <= k < |server.Collection(r.endpoint)| ::
        base == server.Collection(r.endpoint)[k] && Satisfies(base, Pattern(r)))
    || IsTemplate(server, r, base)
  }

  /** What stands at a key that is no object once the resource was merged into the base. */
  function Ends(base: Object, r: Resource, key: string): Json {
    if key in Declared(r) then Declared(r)[key] else Get(base, key)
  }

  /** The two are the same text, or neither is a text. */
  predicate SameText(a: Json, b: Json) {
    a == b || (!a.Str? && !b.Str?)
  }

  /** The object has at the match keys what merging the resource into the base leaves there. */
  predicate Outcome(o: Object, base: Object, r: Resource) {
    forall key | key in MATCH_KEYS :: SameText(Get(o, key), Ends(base, r, key))
  }

  // ---------------------------------------------------------------- results apart

  /** The result over this base does not satisfy the other's match. */
  predicate Misses(base: Object, r: Resource, other: Resource) {
    exists key | key in Pattern(other) :: Ends(base, r, key) != Pattern(other)[key]
  }

  ghost predicate ResultApart(server: Server, managed: bool, r: Resource, other: Resource) {
    r.endpoint == other.endpoint ==> forall base: Object | IsBase(server, managed, r, base) :: Misses(base, r, other)
  }

  /** No resource's result satisfies the match of another resource. */
  ghost predicate ResultsApart(server: Server, managed: bool, rs: seq<Resource>) {
    forall i, j {:trigger ResultApart(server, managed, rs[i], rs[j])} | 0 <= i < |rs| && 0 <= j < |rs| && i != j ::
      ResultApart(server, managed, rs[i], rs[j])
  }

  /** A stored object satisfies both matches. */
  predicate Contested(server: Server, r: Resource, other: Resource) {
    r.endpoint == other.endpoint && exists k | 0 <= k < |server.Collection(r.endpoint)| ::
      && Satisfies(server.Collection(r.endpoint)[k], Pattern(r))
      && Satisfies(server.Collection(r.endpoint)[k], Pattern(other))
  }

  /** No stored object satisfies the matches of two resources. */
  predicate Uncontested(server: Server, rs: seq<Resource>) {
    forall i, j | 0 <= i < j < |rs| :: !Contested(server, rs[i], rs[j])
  }

  /** Settings do not matter to what resources may write. */
  lemma SettingsDoNotMatter(a: Server, b: Server, managed: bool, rs: seq<Resource>)
    requires a.collections == b.collections && a.schemas == b.schemas
    ensures ResultsApart(a, managed, rs) ==> ResultsApart(b, managed, rs)
    ensures Uncontested(a, rs) == Uncontested(b, rs)
  {
    assert forall e :: a.Collection(e) == b.Collection(e) && a.Schemas(e) == b.Schemas(e);
    forall i, j, base: Object | ResultsApart(a, managed, rs) && 0 <= i < |rs| && 0 <= j < |rs| && i != j &&
        rs[i].endpoint == rs[j].endpoint && IsBase(b, managed, rs[i], base)
      ensures Misses(base, rs[i], rs[j])
    {
      assert ResultApart(a, managed, rs[i], rs[j]);
      assert IsBase(a, managed, rs[i], base);
    }
    assert forall i, j | 0 <= i < j < |rs| :: Contested(a, rs[i], rs[j]) == Contested(b, rs[i], rs[j]);
  }

  lemma OutcomeMisses(o: Object, base: Object, r: Resource, other: Resource)
    requires Outcome(o, base, r) && Misses(base, r, other) && other.match_.Keys <= MATCH_KEYS
    ensures !Satisfies(o, Pattern(other))
  {
    var key :| key in Pattern(other) && Ends(base, r, key) != Pattern(other)[key];
    assert SameText(Get(o, key), Ends(base, r, key));
  }

  /** Declaring the other's match keys with other values keeps results apart, whatever the server holds. */
  lemma LiteralsApart(server: Server, managed: bool, rs: seq<Resource>)
    requires forall i, j | 0 <= i < |rs| && 0 <= j < |rs| && i != j && rs[i].endpoint == rs[j].endpoint ::
        exists key | key in Pattern(rs[j]) :: key in Declared(rs[i]) && Declared(rs[i])[key] != Pattern(rs[j])[key]
    ensures ResultsApart(server, managed, rs)
  {
    forall i, j, base: Object | 0 <= i < |rs| && 0 <= j < |rs| && i != j && rs[i].endpoint == rs[j].endpoint
      ensures Misses(base, rs[i], rs[j])
    {
      var key :| key in Pattern(rs[j]) && key in Declared(rs[i]) && Declared(rs[i])[key] != Pattern(rs[j])[key];
      assert Ends(base, rs[i], key) != Pattern(rs[j])[key];
    }
  }

  /** Matches that ask for different values of one key are never contested, and their results are apart. */
  lemma ConflictsApart(server: Server, managed: bool, rs: seq<Resource>)
    requires forall i, j | 0 <= i < |rs| && 0 <= j < |rs| && i != j && rs[i].endpoint == rs[j].endpoint ::
        Conflict(Pattern(rs[i]), Pattern(rs[j]))
    ensures ResultsApart(server, managed, rs) && Uncontested(server, rs)
  {
    forall i, j | 0 <= i < |rs| && 0 <= j < |rs| && i != j && rs[i].endpoint == rs[j].endpoint
      ensures exists key | key in Pattern(rs[j]) ::
          key in Declared(rs[i]) && Declared(rs[i])[key] != Pattern(rs[j])[key]
    {
      var key :| key in Pattern(rs[i]) && key in Pattern(rs[j]) && Pattern(rs[i])[key] != Pattern(rs[j])[key];
      assert Declared(rs[i])[key] == Pattern(rs[i])[key];
    }
    LiteralsApart(server, managed, rs);
  }
}
