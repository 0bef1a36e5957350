/**
 * Reconciliation of manager resources: named lookups, the policy and resource loops, and the server
 * they run against. `Apply` and `RunAll` specify what a real or a dry run does; `Reconcile` is the run itself.
 */
module ArrManager {
  import opened Faults
  import opened JsonValues
  import opened SharedMerge
  import opened Objects

  // ---------------------------------------------------------------- declarations and server

  datatype Resource = Resource(endpoint: string, match_: map<string, string>, values: Object)

  datatype Policy = Policy(endpoint: string, declared: Object)

  datatype Config = Config(managed: bool, prowlarr: bool, policies: seq<Policy>, resources: seq<Resource>)

  /** The application: settings objects, collections by endpoint, provider schemas and the next id it will assign. */
  datatype Server = Server(
    settings: map<string, Object>,
    collections: map<string, seq<Object>>,
    schemas: map<string, seq<Object>>,
    nextId: nat)
  {
    function Collection(endpoint: string): seq<Object> {
      if endpoint in collections then collections[endpoint] else []
    }

    function Schemas(endpoint: string): seq<Object> {
      if endpoint in schemas then schemas[endpoint] else []
    }

    function PutSettings(endpoint: string, body: Object): Server {
      this.(settings := settings[endpoint := body])
    }

    /** Stores the body in place of the object with the id. */
    function Put(endpoint: string, id: Json, body: Object): Server {
      var objects := Collection(endpoint);
      this.(collections := collections[endpoint :=
        seq(|objects|, i requires 0 <= i < |objects| => if Get(objects[i], "id") == id then body else objects[i])])
    }

    /** Stores the body as a new object under the next id. */
    function Post(endpoint: string, body: Object): Server {
      this.(collections := collections[endpoint := Collection(endpoint) + [body["id" := Num(nextId)]]],
          nextId := nextId + 1)
    }

    /** Every stored object has an id of its own, all of them assigned already. */
    ghost predicate Valid() {
      && (forall e, i | 0 <= i < |Collection(e)| ::
          "id" in Collection(e)[i] && Collection(e)[i]["id"].Num? && Collection(e)[i]["id"].n < nextId)
      && (forall e, i, j | 0 <= i < j < |Collection(e)| :: Collection(e)[i]["id"] != Collection(e)[j]["id"])
    }
  }

  // ---------------------------------------------------------------- named lookups

  datatype Lookup = Lookup(endpoint: string, name: Json)

  const LOOKUP_ENDPOINTS: set<string> := {"qualityprofile", "metadataprofile", "tag"}

  const RESOURCE_ENDPOINTS: set<string> := {
    "rootfolder", "downloadclient", "indexer", "indexerproxy", "applications", "tag",
    "qualityprofile", "delayprofile", "notification", "remotepathmapping"
  }

  /** The keys by which objects may be matched. */
  const MATCH_KEYS: set<string> := {"name", "path", "label"}

  function LookupKey(endpoint: string): string {
    if endpoint == "tag" then "label" else "name"
  }

  /** The lookup that an object with a `_lookup` key denotes. */
  function LookupOf(fields: Object): Result<Lookup>
    requires "_lookup" in fields
  {
    var spec := fields["_lookup"];
    if fields.Keys == {"_lookup"} && spec.Obj? && spec.fields.Keys == {"endpoint", "name"} &&
       spec.fields["endpoint"].Str? && spec.fields["endpoint"].s in LOOKUP_ENDPOINTS
    then Ok(Lookup(spec.fields["endpoint"].s, spec.fields["name"]))
    else Err
  }

  function Candidate(server: Server, lookup: Lookup): Found {
    Search(server.Collection(lookup.endpoint), map[LookupKey(lookup.endpoint) := lookup.name])
  }

  /** The value a dry run puts where the id of an object that it only plans to create would stand. */
  function Placeholder(lookup: Lookup): Json {
    Obj(map["_plannedLookup" := Obj(map["endpoint" := Str(lookup.endpoint), "name" := lookup.name])])
  }

  predicate IsPlanned(server: Server, planned: set<Lookup>, lookup: Lookup) {
    Candidate(server, lookup).Nothing? && lookup in planned
  }

  function ResolveLookup(server: Server, planned: set<Lookup>, lookup: Lookup): Result<Json> {
    match Candidate(server, lookup)
    case One(i) =>
      var o := server.Collection(lookup.endpoint)[i];
      if "id" in o then Ok(o["id"]) else Err
    case Nothing => if lookup in planned then Ok(Placeholder(lookup)) else Err
    case Many => Err
  }

  /** The object has the name of the lookup, under the key that its endpoint has for names; none counts as null. */
  predicate Bears(o: Object, lookup: Lookup) {
    var found := At(Obj(o), [if lookup.endpoint == "tag" then "label" else "name"]);
    found == Ok(lookup.name) || (found.Err? && lookup.name == Null)
  }

  lemma CandidateMeans(server: Server, lookup: Lookup)
    ensures forall i | 0 <= i < |server.Collection(lookup.endpoint)| ::
        Candidate(server, lookup) == One(i) <==>
        Bears(server.Collection(lookup.endpoint)[i], lookup)
            && forall j | 0 <= j < |server.Collection(lookup.endpoint)| && j != i ::
            !Bears(server.Collection(lookup.endpoint)[j], lookup)
    ensures Candidate(server, lookup).Nothing? <==>
        forall j | 0 <= j < |server.Collection(lookup.endpoint)| ::
        !Bears(server.Collection(lookup.endpoint)[j], lookup)
  {
    var objects := server.Collection(lookup.endpoint);
    var pattern: Object := map[LookupKey(lookup.endpoint) := lookup.name];
    SearchMeans(objects, pattern);
    forall j | 0 <= j < |objects|
      ensures Satisfies(objects[j], pattern) <==> Bears(objects[j], lookup)
    {
      assert LookupKey(lookup.endpoint) in pattern;
      assert ["label"][1..] == [] && ["name"][1..] == [];
    }
  }

  /**
   * A lookup resolves in a real run if and only if exactly one object of its endpoint bears the name and has an id,
   * and then to that id. A dry run has a placeholder where nothing bears the name and the creation is planned.
   */
  lemma LookupMeans(server: Server, planned: set<Lookup>, lookup: Lookup, id: Json)
    ensures ResolveLookup(server, {}, lookup) == Ok(id) <==>
        exists i | 0 <= i < |server.Collection(lookup.endpoint)| ::
          && Bears(server.Collection(lookup.endpoint)[i], lookup)
          && (forall j | 0 <= j < |server.Collection(lookup.endpoint)| && j != i ::
            !Bears(server.Collection(lookup.endpoint)[j], lookup))
          && At(Obj(server.Collection(lookup.endpoint)[i]), ["id"]) == Ok(id)
    ensures (forall j | 0 <= j < |server.Collection(lookup.endpoint)| ::
          !Bears(server.Collection(lookup.endpoint)[j], lookup)) && lookup in planned ==>
        ResolveLookup(server, planned, lookup) ==
        Ok(Obj(map["_plannedLookup" := Obj(map["endpoint" := Str(lookup.endpoint), "name" := lookup.name])]))
  {
    CandidateMeans(server, lookup);
    assert ["id"][1..] == [];
  }

  /** What counts as a lookup: nothing beside it, and one of three endpoints. */
  lemma LookupOfMeans(fields: Object, endpoint: string, name: Json)
    requires "_lookup" in fields
    ensures LookupOf(fields) == Ok(Lookup(endpoint, name)) <==>
      && fields == map["_lookup" := Obj(map["endpoint" := Str(endpoint), "name" := name])]
      && (endpoint == "qualityprofile" || endpoint == "metadataprofile" || endpoint == "tag")
  {
    var spec := fields["_lookup"];
    assert fields.Keys == {"_lookup"} ==> fields == map["_lookup" := spec];
    if spec.Obj? && spec.fields.Keys == {"endpoint", "name"} {
      assert spec.fields == map["endpoint" := spec.fields["endpoint"], "name" := spec.fields["name"]];
    }
  }

  /** Replaces every lookup inside a value; a real run plans nothing. */
  function Resolve(server: Server, planned: set<Lookup>, value: Json): Result<Json>
    decreases value
  {
    match value
    case Obj(fields) =>
      if "_lookup" in fields then
        var lookup :- LookupOf(fields);
        ResolveLookup(server, planned, lookup)
      else if forall key | key in fields :: Resolve(server, planned, fields[key]).Ok? then
        Ok(Obj(map key | key in fields :: Resolve(server, planned, fields[key]).value))
      else Err
    case Arr(items) =>
      if forall i | 0 <= i < |items| :: Resolve(server, planned, items[i]).Ok? then
        Ok(Arr(seq(|items|, i requires 0 <= i < |items| => Resolve(server, planned, items[i]).value)))
      else Err
    case _ => Ok(value)
  }

  /** At the path, and not inside another lookup, is a lookup that is malformed or has no answer. */
  predicate Unanswered(server: Server, planned: set<Lookup>, value: Json, path: seq<string>)
    decreases value
  {
    match value
    case Obj(fields) =>
      if "_lookup" in fields then
        path == [] && (LookupOf(fields).Err? || ResolveLookup(server, planned, LookupOf(fields).value).Err?)
      else path != [] && path[0] in fields && Unanswered(server, planned, fields[path[0]], path[1..])
    case Arr(items) => exists i | 0 <= i < |items| :: Unanswered(server, planned, items[i], path)
    case _ => false
  }

  lemma {:induction false} FindUnanswered(server: Server, planned: set<Lookup>, value: Json)
    returns (path: seq<string>)
    requires Resolve(server, planned, value).Err?
    ensures Unanswered(server, planned, value, path)
    decreases value
  {
    path := [];
    match value
    case Obj(fields) =>
      if "_lookup" !in fields {
        var key :| key in fields && Resolve(server, planned, fields[key]).Err?;
        var rest := FindUnanswered(server, planned, fields[key]);
        path := [key] + rest;
        assert path[1..] == rest;
      }
    case Arr(items) =>
      var i :| 0 <= i < |items| && Resolve(server, planned, items[i]).Err?;
      path := FindUnanswered(server, planned, items[i]);
  }

  lemma {:induction false} UnansweredFails(server: Server, planned: set<Lookup>, value: Json, path: seq<string>)
    requires Unanswered(server, planned, value, path)
    ensures Resolve(server, planned, value).Err?
    decreases value
  {
    match value
    case Obj(fields) =>
      if "_lookup" !in fields {
        UnansweredFails(server, planned, fields[path[0]], path[1..]);
      }
    case Arr(items) =>
      var i :| 0 <= i < |items| && Unanswered(server, planned, items[i], path);
      UnansweredFails(server, planned, items[i], path);
  }

  ghost predicate Answered(server: Server, planned: set<Lookup>, value: Json) {
    forall path :: !Unanswered(server, planned, value, path)
  }

  /** Values resolve unless they hold a lookup that is malformed or has no answer. */
  lemma ResolveSucceeds(server: Server, planned: set<Lookup>, value: Json)
    ensures Resolve(server, planned, value).Ok? <==> Answered(server, planned, value)
  {
    if Resolve(server, planned, value).Err? {
      var path := FindUnanswered(server, planned, value);
    } else {
      forall path
        ensures !Unanswered(server, planned, value, path)
      {
        if Unanswered(server, planned, value, path) {
          UnansweredFails(server, planned, value, path);
        }
      }
    }
  }

  /** The well-formed lookups inside a value. */
  function Lookups(value: Json): set<Lookup>
    decreases value
  {
    match value
    case Obj(fields) =>
      if "_lookup" in fields then
        var lookup := LookupOf(fields);
        if lookup.Ok? then {lookup.value} else {}
      else set key, lookup | key in fields && lookup in Lookups(fields[key]) :: lookup
    case Arr(items) => set i, lookup | 0 <= i < |items| && lookup in Lookups(items[i]) :: lookup
    case _ => {}
  }

  // ---------------------------------------------------------------- one run

  datatype Counts = Counts(created: nat, updated: nat, untouched: nat)

  /** How far a run has come: what it counted and planned, how often it wrote, and the server behind it. */
  datatype Run = Run(server: Server, counts: Counts, planned: set<Lookup>, dependencies: set<Lookup>, writes: nat) {
    function Untouched(): Run {
      this.(counts := counts.(untouched := counts.untouched + 1))
    }

    function Updated(after: Server, dry: bool): Run {
      if dry then this.(counts := counts.(updated := counts.updated + 1))
      else this.(counts := counts.(updated := counts.updated + 1), server := after, writes := writes + 1)
    }

    function Created(after: Server, plan: set<Lookup>, dry: bool): Run {
      if dry then this.(counts := counts.(created := counts.created + 1), planned := planned + plan)
      else this.(counts := counts.(created := counts.created + 1), server := after, writes := writes + 1)
    }
  }

  function Start(server: Server): Run {
    Run(server, Counts(0, 0, 0), {}, {}, 0)
  }

  function Pattern(r: Resource): Object {
    map key | key in r.match_ :: Str(r.match_[key])
  }

  /** The declared values; the keys of the match take precedence. */
  function Declared(r: Resource): Object {
    r.values + Pattern(r)
  }

  lemma DeclaredIsMerged(r: Resource)
    ensures Merge(r.values, Pattern(r)) == Ok(Declared(r))
  {
    MergeIs(r.values, Pattern(r), Declared(r));
  }

  predicate Supported(config: Config, r: Resource) {
    && r.endpoint in RESOURCE_ENDPOINTS
    && (r.endpoint == "indexerproxy" ==> config.prowlarr)
    && r.match_ != map[]
    && r.match_.Keys <= MATCH_KEYS
  }

  /** What a resource needs to be handled at all. */
  lemma SupportedMeans(config: Config, r: Resource)
    ensures Supported(config, r) <==>
      && (r.endpoint == "rootfolder" || r.endpoint == "downloadclient" || r.endpoint == "indexer"
        || (r.endpoint == "indexerproxy" && config.prowlarr) || r.endpoint == "applications" || r.endpoint == "tag"
        || r.endpoint == "qualityprofile" || r.endpoint == "delayprofile" || r.endpoint == "notification"
        || r.endpoint == "remotepathmapping")
      && (exists key :: key in r.match_)
      && (forall key | key in r.match_ :: key == "name" || key == "path" || key == "label")
  {
    if r.match_ != map[] {
      assert exists key :: key in r.match_.Keys;
    }
  }

  /** The identity under which a dry run remembers a planned object. */
  function Identity(r: Resource): set<Lookup> {
    if "name" in r.match_ then {Lookup(r.endpoint, Str(r.match_["name"]))}
    else if "label" in r.match_ then {Lookup(r.endpoint, Str(r.match_["label"]))}
    else {}
  }

  /** What a new object starts from: nothing, or the one schema of its implementation. */
  function Template(server: Server, endpoint: string, values: Object): Result<Object> {
    if "implementation" !in values then Ok(map[])
    else
      match Search(server.Schemas(endpoint), map["implementation" := values["implementation"]])
      case One(i) => Ok(server.Schemas(endpoint)[i])
      case _ => Err
  }

  /** The schema has the implementation; none counts as null. */
  predicate Implements(schema: Object, implementation: Json) {
    var found := At(Obj(schema), ["implementation"]);
    found == Ok(implementation) || (found.Err? && implementation == Null)
  }

  /** Without an implementation a new object starts from nothing, otherwise from the one schema that has it. */
  lemma TemplateMeans(server: Server, endpoint: string, values: Object, template: Object)
    ensures Template(server, endpoint, values) == Ok(template) <==>
        if "implementation" !in values then template == map[]
        else exists i | 0 <= i < |server.Schemas(endpoint)| ::
          && server.Schemas(endpoint)[i] == template
          && forall j | 0 <= j < |server.Schemas(endpoint)| ::
            Implements(server.Schemas(endpoint)[j], values["implementation"]) <==> j == i
  {
    if "implementation" in values {
      var pattern: Object := map["implementation" := values["implementation"]];
      SearchMeans(server.Schemas(endpoint), pattern);
      forall j | 0 <= j < |server.Schemas(endpoint)|
        ensures Satisfies(server.Schemas(endpoint)[j], pattern) <==>
            Implements(server.Schemas(endpoint)[j], values["implementation"])
      {
        assert "implementation" in pattern && ["implementation"][1..] == [];
      }
    }
  }

  datatype Change = Leave | Replace(id: Json, body: Object) | Create(body: Object)

  /** What an existing object needs, if anything; its implementation cannot be replaced. */
  function Rewrite(current: Object, values: Object): Result<Change> {
    if "implementation" in values && Get(current, "implementation") != values["implementation"] then Err
    else
      var desired :- Merge(current, values);
      if desired == current then Ok(Leave)
      else if "id" !in current then Err
      else Ok(Replace(current["id"], desired))
  }

  function Creation(server: Server, r: Resource, values: Object): Result<Change> {
    var template :- Template(server, r.endpoint, values);
    var desired :- Merge(template, values);
    Ok(Create(desired - {"id"}))
  }

  /** What the resolved values call for: nothing, a rewritten object, or a new one. */
  function Decide(server: Server, config: Config, r: Resource, values: Object): Result<Change> {
    match Search(server.Collection(r.endpoint), Pattern(r))
    case Many => Err
    case One(i) =>
      if config.managed then Rewrite(server.Collection(r.endpoint)[i], values) else Ok(Leave)
    case Nothing => Creation(server, r, values)
  }

  /** Counts the change; a real run sends it, a dry run remembers what it would create. */
  function Record(run: Run, r: Resource, change: Change, dry: bool): Run {
    match change
    case Leave => run.Untouched()
    case Replace(id, body) => run.Updated(run.server.Put(r.endpoint, id, body), dry)
    case Create(body) => run.Created(run.server.Post(r.endpoint, body), Identity(r), dry)
  }

  function Recorded(run: Run, r: Resource, change: Result<Change>, dry: bool): Result<Run> {
    var taken :- change;
    Ok(Record(run, r, taken, dry))
  }

  /** The lookups of a resource that a run can only answer with a placeholder. */
  function PlannedLookups(server: Server, planned: set<Lookup>, r: Resource): set<Lookup> {
    set lookup | lookup in Lookups(Obj(Declared(r))) && IsPlanned(server, planned, lookup)
  }

  /** What a run may answer with placeholders: a real run nothing. */
  function PlannedBy(run: Run, dry: bool): set<Lookup> {
    if dry then run.planned else {}
  }

  /** The declared values with their lookups replaced. */
  function ValuesOf(server: Server, planned: set<Lookup>, r: Resource): Result<Object> {
    var resolved :- Resolve(server, planned, Obj(Declared(r)));
    if resolved.Obj? then Ok(resolved.fields) else Err
  }

  /** One resource of the declared list. */
  function Apply(run: Run, config: Config, r: Resource, dry: bool): Result<Run> {
    if !Supported(config, r) then Err
    else
      var planned := PlannedBy(run, dry);
      var values :- ValuesOf(run.server, planned, r);
      var noted := run.(dependencies := run.dependencies + PlannedLookups(run.server, planned, r));
      Recorded(noted, r, Decide(run.server, config, r, values), dry)
  }

  /** The settings object of one section. */
  function ApplyPolicy(run: Run, config: Config, p: Policy, dry: bool): Result<Run> {
    if p.declared == map[] then Ok(run)
    else if p.endpoint !in run.server.settings then Err
    else
      var current := run.server.settings[p.endpoint];
      if !(p.declared.Keys <= current.Keys) then Err
      else
        var desired :- Merge(current, p.declared);
        if !config.managed || desired == current then Ok(run.Untouched())
        else Ok(run.Updated(run.server.PutSettings(p.endpoint, desired), dry))
  }

  /** The declared fields have a place in what they are merged into. */
  ghost predicate Merges(current: Object, values: Object) {
    !exists path :: FailsAt(current, values, path)
  }

  /**
   * Just when a resource is handled: it is supported, every lookup in it has an answer and none stands for the whole,
   * and its match is not ambiguous. An object that it finds is left alone in bootstrap mode, and otherwise has the
   * declared implementation and a place for the declared fields; a new one starts from a schema that has.
   */
  lemma ApplySucceeds(run: Run, config: Config, r: Resource, dry: bool, planned: set<Lookup>)
    requires run.server.Valid() && planned == if dry then run.planned else {}
    ensures (Apply(run, config, r, dry).Ok? <==>
      && Supported(config, r)
      && Answered(run.server, planned, Obj(Declared(r))) && ValuesOf(run.server, planned, r).Ok?
      && var objects := run.server.Collection(r.endpoint);
        var values := ValuesOf(run.server, planned, r).value;
        match Search(objects, Pattern(r))
        case Many => false
        case One(i) => !config.managed ||
          (("implementation" in values ==> Implements(objects[i], values["implementation"]))
          && Merges(objects[i], values))
        case Nothing =>
          Template(run.server, r.endpoint, values).Ok?
          && Merges(Template(run.server, r.endpoint, values).value, values))
  {
    ResolveSucceeds(run.server, planned, Obj(Declared(r)));
    if ValuesOf(run.server, planned, r).Ok? {
      var values := ValuesOf(run.server, planned, r).value;
      var objects := run.server.Collection(r.endpoint);
      match Search(objects, Pattern(r))
      case Many =>
      case One(i) =>
        MergeFails(objects[i], values);
        assert ["implementation"][1..] == [] && "id" in objects[i];
      case Nothing =>
        if Template(run.server, r.endpoint, values).Ok? {
          MergeFails(Template(run.server, r.endpoint, values).value, values);
        }
    }
  }

  /** Just when a settings section is handled: nothing is declared for it, or it is there with all declared keys. */
  lemma PolicySucceeds(run: Run, config: Config, p: Policy, dry: bool)
    ensures (ApplyPolicy(run, config, p, dry).Ok? <==>
      || p.declared == map[]
      || (p.endpoint in run.server.settings
        && (forall key | key in p.declared :: key in run.server.settings[p.endpoint])
        && Merges(run.server.settings[p.endpoint], p.declared)))
  {
    if p.endpoint in run.server.settings {
      MergeFails(run.server.settings[p.endpoint], p.declared);
    }
  }

  /** Takes the steps of a list in order, up to the first that fails. */
  function Fold<T>(step: (Run, T) -> Result<Run>, run: Run, items: seq<T>): Result<Run> {
    if items == [] then Ok(run)
    else
      var before :- Fold(step, run, items[..|items| - 1]);
      step(before, items[|items| - 1])
  }

  function PolicySteps(config: Config, dry: bool): (Run, Policy) -> Result<Run> {
    (run: Run, p: Policy) => ApplyPolicy(run, config, p, dry)
  }

  function ResourceSteps(config: Config, dry: bool): (Run, Resource) -> Result<Run> {
    (run: Run, r: Resource) => Apply(run, config, r, dry)
  }

  function RunPolicies(run: Run, config: Config, ps: seq<Policy>, dry: bool): Result<Run> {
    Fold(PolicySteps(config, dry), run, ps)
  }

  function RunResources(run: Run, config: Config, rs: seq<Resource>, dry: bool): Result<Run> {
    Fold(ResourceSteps(config, dry), run, rs)
  }

  function RunAll(server: Server, config: Config, dry: bool): Result<Run> {
    var settled :- RunPolicies(Start(server), config, config.policies, dry);
    RunResources(settled, config, config.resources, dry)
  }

  /** A run that is cut off after so many settings sections and resources. */
  function RunPart(server: Server, config: Config, dry: bool, n: nat): Result<Run>
    requires n <= |config.policies| + |config.resources|
  {
    if n <= |config.policies| then RunPolicies(Start(server), config, config.policies[..n], dry)
    else
      var settled :- RunPolicies(Start(server), config, config.policies, dry);
      RunResources(settled, config, config.resources[..n - |config.policies|], dry)
  }

  // ---------------------------------------------------------------- the run as it is executed

  /** The application behind its HTTP API. Any request may fail, with or without its effect. */
  class Manager {
    var server: Server

    /** Whether every request is answered. */
    var reliable: bool

    /** How many requests that change something were sent. */
    var writes: nat

    constructor (server: Server, reliable: bool)
      ensures this.server == server && this.reliable == reliable && writes == 0
    {
      this.server, this.reliable, this.writes := server, reliable, 0;
    }

    /** Whether the requests by which one step reads the server are all answered. */
    method Read() returns (ok: bool)
      ensures reliable ==> ok
    {
      var done;
      done, ok := Luck(reliable);
    }

    method PutSettings(endpoint: string, body: Object) returns (ok: bool)
      modifies `server, `writes
      ensures Sent(old(server), old(server).PutSettings(endpoint, body), server, reliable, ok)
      ensures writes == old(writes) + 1
    {
      var done;
      done, ok := Luck(reliable);
      if done {
        server := server.(settings := server.settings[endpoint := body]);
      }
      writes := writes + 1;
    }

    method Put(endpoint: string, id: Json, body: Object) returns (ok: bool)
      modifies `server, `writes
      ensures Sent(old(server), old(server).Put(endpoint, id, body), server, reliable, ok)
      ensures writes == old(writes) + 1
    {
      var objects := server.Collection(endpoint);
      var i := 0;
      var stored: seq<Object> := [];
      while i < |objects|
        invariant i == |stored| <= |objects|
        invariant forall j | 0 <= j < i :: stored[j] == if Get(objects[j], "id") == id then body else objects[j]
        invariant server == old(server) && writes == old(writes)
      {
        stored := stored + [if Get(objects[i], "id") == id then body else objects[i]];
        i := i + 1;
      }
      assert stored ==
          seq(|objects|, i requires 0 <= i < |objects| => if Get(objects[i], "id") == id then body else objects[i]);
      var done;
      done, ok := Luck(reliable);
      if done {
        server := server.(collections := server.collections[endpoint := stored]);
      }
      writes := writes + 1;
    }

    method Post(endpoint: string, body: Object) returns (ok: bool)
      modifies `server, `writes
      ensures Sent(old(server), old(server).Post(endpoint, body), server, reliable, ok)
      ensures writes == old(writes) + 1
    {
      var done;
      done, ok := Luck(reliable);
      if done {
        server := server.Post(endpoint, body);
      }
      writes := writes + 1;
    }
  }

  /** A request that was answered has taken effect; one that was not may have. */
  predicate Sent(before: Server, effect: Server, after: Server, reliable: bool, answered: bool) {
    (reliable ==> answered) && (answered ==> after == effect) && (after == before || after == effect)
  }

  /** The run and the manager's state agree. */
  predicate InStep(server: Server, writes: nat, start: Server, before: nat, run: Run, dry: bool) {
    && server == run.server && writes == before + run.writes
    && (dry ==> server == start && run.writes == 0)
  }

  /**
   * What executing a step that should give `expected` may come to. A reliable server gives just that; otherwise the
   * step may fail, and then its one write has taken effect or not.
   */
  predicate Executed(run: Run, expected: Result<Run>, next: Result<Run>, server: Server, reliable: bool) {
    && (next.Ok? || reliable ==> next == expected)
    && (next.Ok? ==> server == next.value.server)
    && (next.Err? ==> server == run.server || (expected.Ok? && server == expected.value.server && !reliable))
  }

  /**
   * The server is that of the run cut off after so many settings sections and resources; a run that was refused would
   * fail at the next.
   */
  predicate CutOff(start: Server, config: Config, dry: bool, server: Server, reached: nat, refused: bool) {
    && reached <= |config.policies| + |config.resources|
    && RunPart(start, config, dry, reached).Ok? && server == RunPart(start, config, dry, reached).value.server
    && (refused ==>
      reached < |config.policies| + |config.resources| && RunPart(start, config, dry, reached + 1).Err?)
  }

  /** A run that is cut off among the resources has settled the policies. */
  lemma ResourcesPart(start: Server, config: Config, dry: bool, settled: Run, n: nat)
    requires RunPolicies(Start(start), config, config.policies, dry) == Ok(settled) && n <= |config.resources|
    ensures RunPart(start, config, dry, |config.policies| + n) ==
        RunResources(settled, config, config.resources[..n], dry)
  {
    assert config.policies[..|config.policies|] == config.policies;
    assert (|config.policies| + n) - |config.policies| == n;
  }

  /** One step in the course of a run; the run may stop at it, before or after its effect. */
  lemma FoldTaken<T>(step: (Run, T) -> Result<Run>, first: Run, items: seq<T>, run: Run, i: nat, next: Result<Run>,
        server: Server, reliable: bool)
    returns (n: nat)
    requires i < |items| && Fold(step, first, items[..i]) == Ok(run)
    requires Executed(run, step(run, items[i]), next, server, reliable)
    ensures next.Ok? ==> next == Fold(step, first, items[..i + 1])
    ensures next.Err? ==>
      && n <= |items|
      && Fold(step, first, items[..n]).Ok? && server == Fold(step, first, items[..n]).value.server
      && (reliable ==> n < |items| && Fold(step, first, items[..n + 1]).Err? && Fold(step, first, items).Err?)
  {
    FoldStep(step, first, items, i, run);
    n := if server == run.server then i else i + 1;
    if next.Err? && reliable {
      FoldFails(step, first, items, i + 1);
    }
  }

  lemma PolicyTaken(start: Server, config: Config, dry: bool, run: Run, i: nat, next: Result<Run>, server: Server,
        reliable: bool)
    returns (reached: nat)
    requires i < |config.policies| && RunPolicies(Start(start), config, config.policies[..i], dry) == Ok(run)
    requires Executed(run, ApplyPolicy(run, config, config.policies[i], dry), next, server, reliable)
    ensures next.Ok? ==> next == RunPolicies(Start(start), config, config.policies[..i + 1], dry)
    ensures next.Err? ==> CutOff(start, config, dry, server, reached, reliable)
    ensures next.Err? && reliable ==> RunPolicies(Start(start), config, config.policies, dry).Err?
  {
    reached := FoldTaken(PolicySteps(config, dry), Start(start), config.policies, run, i, next, server, reliable);
  }

  lemma CutOffAmong(start: Server, config: Config, dry: bool, settled: Run, n: nat, server: Server, refused: bool)
    requires RunPolicies(Start(start), config, config.policies, dry) == Ok(settled) && n <= |config.resources|
    requires RunResources(settled, config, config.resources[..n], dry).Ok?
    requires server == RunResources(settled, config, config.resources[..n], dry).value.server
    requires refused ==>
        n < |config.resources| && RunResources(settled, config, config.resources[..n + 1], dry).Err?
    ensures CutOff(start, config, dry, server, |config.policies| + n, refused)
  {
    ResourcesPart(start, config, dry, settled, n);
    if refused {
      ResourcesPart(start, config, dry, settled, n + 1);
    }
  }

  lemma ResourceTaken(start: Server, config: Config, dry: bool, settled: Run, run: Run, i: nat, next: Result<Run>,
        server: Server, reliable: bool)
    returns (reached: nat)
    requires RunPolicies(Start(start), config, config.policies, dry) == Ok(settled) && i < |config.resources|
    requires RunResources(settled, config, config.resources[..i], dry) == Ok(run)
    requires Executed(run, Apply(run, config, config.resources[i], dry), next, server, reliable)
    ensures next.Ok? ==> next == RunResources(settled, config, config.resources[..i + 1], dry)
    ensures next.Err? ==> CutOff(start, config, dry, server, reached, reliable)
    ensures next.Err? && reliable ==> RunResources(settled, config, config.resources, dry).Err?
  {
    var n := FoldTaken(ResourceSteps(config, dry), settled, config.resources, run, i, next, server, reliable);
    reached := |config.policies| + n;
    if next.Err? {
      CutOffAmong(start, config, dry, settled, n, server, reliable);
    }
  }

  lemma AfterResources(start: Server, config: Config, dry: bool, settled: Run, run: Run)
    requires RunPolicies(Start(start), config, config.policies, dry) == Ok(settled)
    requires RunResources(settled, config, config.resources, dry) == Ok(run)
    ensures CutOff(start, config, dry, run.server, |config.policies| + |config.resources|, false)
  {
    ResourcesPart(start, config, dry, settled, |config.resources|);
    assert config.resources[..|config.resources|] == config.resources;
  }

  /**
   * Settings sections first, then the resources in order. The report is that of the whole run, and there is one unless
   * a check or a request fails. Wherever the run ends, the server is that of the run cut off after some section or
   * resource; on a reliable server, just before the one that a check refuses.
   */
  method Reconcile(manager: Manager, config: Config, dry: bool) returns (report: Result<Run>, ghost reached: nat)
    modifies manager`server, manager`writes
    ensures report.Ok? || manager.reliable ==> report == RunAll(old(manager.server), config, dry)
    ensures report.Ok? ==>
      && reached == |config.policies| + |config.resources|
      && manager.server == report.value.server
      && manager.writes == old(manager.writes) + report.value.writes
    ensures CutOff(old(manager.server), config, dry, manager.server, reached, report.Err? && manager.reliable)
    ensures dry ==> manager.server == old(manager.server) && manager.writes == old(manager.writes)
  {
    ghost var start, before := manager.server, manager.writes;
    report, reached := ReconcilePolicies(manager, config, dry);
    if report.Err? {
      return;
    }
    report, reached := ReconcileResources(manager, report.value, config, dry, start, before);
  }

  method ReconcilePolicies(manager: Manager, config: Config, dry: bool)
    returns (report: Result<Run>, ghost reached: nat)
    modifies manager`server, manager`writes
    ensures report.Ok? || manager.reliable ==>
        report == RunPolicies(Start(old(manager.server)), config, config.policies, dry)
    ensures report.Ok? ==>
        InStep(manager.server, manager.writes, old(manager.server), old(manager.writes), report.value, dry)
    ensures report.Err? ==>
        CutOff(old(manager.server), config, dry, manager.server, reached, manager.reliable)
    ensures dry ==> manager.server == old(manager.server) && manager.writes == old(manager.writes)
  {
    var run := Start(manager.server);
    reached := 0;
    for i := 0 to |config.policies|
      invariant RunPolicies(Start(old(manager.server)), config, config.policies[..i], dry) == Ok(run)
      invariant InStep(manager.server, manager.writes, old(manager.server), old(manager.writes), run, dry)
    {
      report := PolicyStep(manager, run, config, config.policies[i], dry);
      reached := PolicyTaken(old(manager.server), config, dry, run, i, report, manager.server, manager.reliable);
      if report.Err? {
        return;
      }
      run := report.value;
    }
    assert config.policies[..|config.policies|] == config.policies;
    report := Ok(run);
  }

  method ReconcileResources(manager: Manager, settled: Run, config: Config, dry: bool, ghost start: Server,
        ghost before: nat)
    returns (report: Result<Run>, ghost reached: nat)
    requires InStep(manager.server, manager.writes, start, before, settled, dry)
    requires RunPolicies(Start(start), config, config.policies, dry) == Ok(settled)
    modifies manager`server, manager`writes
    ensures report.Ok? || manager.reliable ==> report == RunResources(settled, config, config.resources, dry)
    ensures report.Ok? ==>
      && reached == |config.policies| + |config.resources|
      && InStep(manager.server, manager.writes, start, before, report.value, dry)
    ensures CutOff(start, config, dry, manager.server, reached, report.Err? && manager.reliable)
    ensures dry ==> manager.server == start && manager.writes == before
  {
    var run := settled;
    for i := 0 to |config.resources|
      invariant RunResources(settled, config, config.resources[..i], dry) == Ok(run)
      invariant InStep(manager.server, manager.writes, start, before, run, dry)
    {
      report, reached := ResourceTurn(manager, run, config, i, dry, start, before, settled);
      if report.Err? {
        return;
      }
      run := report.value;
    }
    assert config.resources[..|config.resources|] == config.resources;
    AfterResources(start, config, dry, settled, run);
    report, reached := Ok(run), |config.policies| + |config.resources|;
  }

  method ResourceTurn(manager: Manager, run: Run, config: Config, i: nat, dry: bool, ghost start: Server,
        ghost before: nat, ghost settled: Run)
    returns (next: Result<Run>, ghost reached: nat)
    requires InStep(manager.server, manager.writes, start, before, run, dry) && i < |config.resources|
    requires RunPolicies(Start(start), config, config.policies, dry) == Ok(settled)
    requires RunResources(settled, config, config.resources[..i], dry) == Ok(run)
    modifies manager`server, manager`writes
    ensures next.Ok? ==>
      && next == RunResources(settled, config, config.resources[..i + 1], dry)
      && InStep(manager.server, manager.writes, start, before, next.value, dry)
    ensures next.Err? ==> CutOff(start, config, dry, manager.server, reached, manager.reliable)
    ensures next.Err? && manager.reliable ==> RunResources(settled, config, config.resources, dry).Err?
    ensures dry ==> manager.server == start && manager.writes == before
  {
    next := ResourceStep(manager, run, config, config.resources[i], dry);
    reached := ResourceTaken(start, config, dry, settled, run, i, next, manager.server, manager.reliable);
  }

  method PolicyStep(manager: Manager, run: Run, config: Config, p: Policy, dry: bool) returns (next: Result<Run>)
    requires manager.server == run.server
    modifies manager`server, manager`writes
    ensures Executed(run, ApplyPolicy(run, config, p, dry), next, manager.server, manager.reliable)
    ensures next.Ok? ==> manager.writes + run.writes == old(manager.writes) + next.value.writes
    ensures dry ==> manager.server == old(manager.server) && manager.writes == old(manager.writes)
  {
    if p.declared == map[] {
      return Ok(run);
    }
    var ok := manager.Read();
    if !ok || p.endpoint !in manager.server.settings {
      return Err;
    }
    var current := manager.server.settings[p.endpoint];
    if !(p.declared.Keys <= current.Keys) {
      return Err;
    }
    var desired := MergeByKey(current, p.declared);
    if desired.Err? {
      return Err;
    }
    if !config.managed || desired.value == current {
      return Ok(run.Untouched());
    }
    next := Ok(run.Updated(manager.server.PutSettings(p.endpoint, desired.value), dry));
    if !dry {
      ok := manager.PutSettings(p.endpoint, desired.value);
      next := if ok then next else Err;
    }
  }

  method ResourceStep(manager: Manager, run: Run, config: Config, r: Resource, dry: bool) returns (next: Result<Run>)
    requires manager.server == run.server
    modifies manager`server, manager`writes
    ensures Executed(run, Apply(run, config, r, dry), next, manager.server, manager.reliable)
    ensures next.Ok? ==> manager.writes + run.writes == old(manager.writes) + next.value.writes
    ensures dry ==> manager.server == old(manager.server) && manager.writes == old(manager.writes)
  {
    if !Supported(config, r) {
      return Err;
    }
    DeclaredIsMerged(r);
    var merged := MergeByKey(r.values, Pattern(r));
    var ok := manager.Read();
    if !ok {
      return Err;
    }
    var resolved := Resolve(manager.server, PlannedBy(run, dry), Obj(merged.value));
    if resolved.Err? || !resolved.value.Obj? {
      return Err;
    }
    var values := resolved.value.fields;
    var noted := run.(dependencies := run.dependencies + PlannedLookups(manager.server, PlannedBy(run, dry), r));
    var found := Search(manager.server.Collection(r.endpoint), Pattern(r));
    if found.Many? {
      return Err;
    }
    if found.One? {
      if !config.managed {
        return Ok(noted.Untouched());
      }
      next := UpdateResource(manager, noted, r, values, found.index, dry);
    } else {
      next := CreateResource(manager, noted, r, values, dry);
    }
  }

  method UpdateResource(manager: Manager, noted: Run, r: Resource, values: Object, i: nat, dry: bool)
    returns (next: Result<Run>)
    requires manager.server == noted.server && i < |noted.server.Collection(r.endpoint)|
    modifies manager`server, manager`writes
    ensures
      var current := noted.server.Collection(r.endpoint)[i];
      Executed(noted, Recorded(noted, r, Rewrite(current, values), dry), next, manager.server, manager.reliable)
    ensures next.Ok? ==> manager.writes + noted.writes == old(manager.writes) + next.value.writes
    ensures dry ==> manager.server == old(manager.server) && manager.writes == old(manager.writes)
  {
    var current := manager.server.Collection(r.endpoint)[i];
    if "implementation" in values && Get(current, "implementation") != values["implementation"] {
      return Err;
    }
    var desired := MergeByKey(current, values);
    if desired.Err? {
      return Err;
    }
    if desired.value == current {
      return Ok(noted.Untouched());
    }
    if "id" !in current {
      return Err;
    }
    next := Ok(noted.Updated(manager.server.Put(r.endpoint, current["id"], desired.value), dry));
    if !dry {
      var ok := manager.Put(r.endpoint, current["id"], desired.value);
      next := if ok then next else Err;
    }
  }

  method CreateResource(manager: Manager, noted: Run, r: Resource, values: Object, dry: bool)
    returns (next: Result<Run>)
    requires manager.server == noted.server
    modifies manager`server, manager`writes
    ensures
      var change := Creation(noted.server, r, values);
      Executed(noted, Recorded(noted, r, change, dry), next, manager.server, manager.reliable)
    ensures next.Ok? ==> manager.writes + noted.writes == old(manager.writes) + next.value.writes
    ensures dry ==> manager.server == old(manager.server) && manager.writes == old(manager.writes)
  {
    var template := Template(manager.server, r.endpoint, values);
    if template.Err? {
      return Err;
    }
    var desired := MergeByKey(template.value, values);
    if desired.Err? {
      return Err;
    }
    next := Ok(noted.Created(manager.server.Post(r.endpoint, desired.value - {"id"}), Identity(r), dry));
    if !dry {
      var ok := manager.Post(r.endpoint, desired.value - {"id"});
      next := if ok then next else Err;
    }
  }

  /** A run that fails on a prefix fails on the whole. */
  lemma {:induction false} FoldFails<T>(step: (Run, T) -> Result<Run>, run: Run, items: seq<T>, n: nat)
    requires n <= |items| && Fold(step, run, items[..n]).Err?
    ensures Fold(step, run, items).Err?
  {
    if n < |items| {
      assert items[..|items| - 1][..n] == items[..n];
      FoldFails(step, run, items[..|items| - 1], n);
    } else {
      assert items[..n] == items;
    }
  }

  /** A run that succeeds on the whole succeeds on every prefix. */
  lemma {:induction false} FoldPrefix<T>(step: (Run, T) -> Result<Run>, run: Run, items: seq<T>, n: nat)
    requires n <= |items| && Fold(step, run, items).Ok?
    ensures Fold(step, run, items[..n]).Ok?
  {
    if n < |items| {
      assert items[..|items| - 1][..n] == items[..n];
      FoldPrefix(step, run, items[..|items| - 1], n);
    } else {
      assert items[..n] == items;
    }
  }

  /** One more step. */
  lemma FoldStep<T>(step: (Run, T) -> Result<Run>, run: Run, items: seq<T>, n: nat, before: Run)
    requires n < |items| && Fold(step, run, items[..n]) == Ok(before)
    ensures Fold(step, run, items[..n + 1]) == step(before, items[n])
  {
    assert items[..n + 1][..n] == items[..n];
  }

  /** What a run of the settings sections asks of the server: every declared key is there already. */
  lemma {:induction false} PoliciesExposed(run: Run, config: Config, ps: seq<Policy>, dry: bool)
    requires RunPolicies(run, config, ps, dry).Ok?
    ensures forall p | p in ps && p.declared != map[] ::
        p.endpoint in run.server.settings && p.declared.Keys <= run.server.settings[p.endpoint].Keys
    ensures
      var after := RunPolicies(run, config, ps, dry).value.server.settings;
      after.Keys == run.server.settings.Keys && forall e | e in after :: after[e].Keys == run.server.settings[e].Keys
  {
    if ps != [] {
      var last := |ps| - 1;
      PoliciesExposed(run, config, ps[..last], dry);
      PolicyExposed(RunPolicies(run, config, ps[..last], dry).value, config, ps[last], dry);
    }
  }

  lemma PolicyExposed(run: Run, config: Config, p: Policy, dry: bool)
    requires ApplyPolicy(run, config, p, dry).Ok?
    ensures p.declared != map[] ==>
        p.endpoint in run.server.settings && p.declared.Keys <= run.server.settings[p.endpoint].Keys
    ensures
      var after := ApplyPolicy(run, config, p, dry).value.server.settings;
      after.Keys == run.server.settings.Keys && forall e | e in after :: after[e].Keys == run.server.settings[e].Keys
  {
  }

  /** The states that a run goes through. */
  lemma FoldTrace<T>(step: (Run, T) -> Result<Run>, run: Run, items: seq<T>) returns (runs: seq<Run>)
    requires Fold(step, run, items).Ok?
    ensures |runs| == |items| + 1 && runs[0] == run && Ok(runs[|items|]) == Fold(step, run, items)
    ensures forall n {:trigger items[n]} | 0 <= n < |items| :: step(runs[n], items[n]) == Ok(runs[n + 1])
    ensures forall n {:trigger runs[n]} | 0 <= n <= |items| :: Fold(step, run, items[..n]) == Ok(runs[n])
  {
    forall n: nat | n <= |items|
      ensures Fold(step, run, items[..n]).Ok?
    {
      FoldPrefix(step, run, items, n);
    }
    runs := seq(|items| + 1, n requires 0 <= n <= |items| => Fold(step, run, items[..n]).value);
    assert items[..|items|] == items;
    forall n | 0 <= n < |items|
      ensures step(runs[n], items[n]) == Ok(runs[n + 1])
    {
      FoldStep(step, run, items, n, runs[n]);
    }
  }

  /** Steps that lead from state to state make up a run. */
  lemma {:induction false} FoldFrom<T>(step: (Run, T) -> Result<Run>, runs: seq<Run>, items: seq<T>)
    requires |runs| == |items| + 1
    requires forall n {:trigger items[n]} | 0 <= n < |items| :: step(runs[n], items[n]) == Ok(runs[n + 1])
    ensures Fold(step, runs[0], items) == Ok(runs[|items|])
  {
    if items != [] {
      var last := |items| - 1;
      FoldFrom(step, runs[..|items|], items[..last]);
      assert step(runs[last], items[last]) == Ok(runs[|items|]);
    }
  }

  /** Settling the policies touches no object, and a dry run touches nothing. */
  lemma {:induction false} PoliciesLeaveObjects(run: Run, config: Config, ps: seq<Policy>, dry: bool)
    requires RunPolicies(run, config, ps, dry).Ok?
    ensures
      var after := RunPolicies(run, config, ps, dry).value;
      && after.counts.created == run.counts.created && (dry ==> after.server == run.server)
      && after.server.collections == run.server.collections && after.server.schemas == run.server.schemas
      && after.server.nextId == run.server.nextId
  {
    if ps != [] {
      PoliciesLeaveObjects(run, config, ps[..|ps| - 1], dry);
    }
  }

  lemma SettingsAside(server: Server, settings: map<string, Object>)
    ensures server.Valid() ==> server.(settings := settings).Valid()
    ensures forall e :: server.(settings := settings).Collection(e) == server.Collection(e)
  {
    assert forall e :: server.(settings := settings).Collection(e) == server.Collection(e);
  }

  // ---------------------------------------------------------------- what the report adds up to

  function Total(counts: Counts): int {
    counts.created + counts.updated + counts.untouched
  }

  function Sections(ps: seq<Policy>): nat {
    if ps == [] then 0 else Sections(ps[..|ps| - 1]) + if ps[|ps| - 1].declared == map[] then 0 else 1
  }

  /** Each created or updated object is one write in a real run, and none in a dry run. */
  predicate Balanced(run: Run, dry: bool) {
    run.writes == if dry then 0 else run.counts.created + run.counts.updated
  }

  lemma {:induction false} PolicyCounts(server: Server, config: Config, ps: seq<Policy>, dry: bool)
    requires RunPolicies(Start(server), config, ps, dry).Ok?
    ensures
      var run := RunPolicies(Start(server), config, ps, dry).value;
      Balanced(run, dry) && Total(run.counts) == Sections(ps)
  {
    if ps != [] {
      PolicyCounts(server, config, ps[..|ps| - 1], dry);
    }
  }

  lemma StepCounts(run: Run, config: Config, r: Resource, dry: bool)
    requires Apply(run, config, r, dry).Ok? && Balanced(run, dry)
    ensures
      var next := Apply(run, config, r, dry).value;
      Balanced(next, dry) && Total(next.counts) == Total(run.counts) + 1
  {
  }

  lemma {:induction false} ResourceCounts(run: Run, config: Config, rs: seq<Resource>, dry: bool)
    requires Balanced(run, dry) && RunResources(run, config, rs, dry).Ok?
    ensures
      var after := RunResources(run, config, rs, dry).value;
      Balanced(after, dry) && Total(after.counts) == Total(run.counts) + |rs|
  {
    if rs != [] {
      var last := |rs| - 1;
      ResourceCounts(run, config, rs[..last], dry);
      StepCounts(RunResources(run, config, rs[..last], dry).value, config, rs[last], dry);
    }
  }

  /** Every declared section and resource is counted once, and the writes are those that the report counts. */
  lemma CountsAddUp(server: Server, config: Config, dry: bool)
    requires RunAll(server, config, dry).Ok?
    ensures
      var run := RunAll(server, config, dry).value;
      Balanced(run, dry) && Total(run.counts) == Sections(config.policies) + |config.resources|
  {
    PolicyCounts(server, config, config.policies, dry);
    ResourceCounts(RunPolicies(Start(server), config, config.policies, dry).value, config, config.resources, dry);
  }
}
