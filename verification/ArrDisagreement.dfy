/**
 * Plans whose results are not apart: two resources that find one object and declare different values for it. Their
 * runs never come to rest.
 */
module ArrDisagreement {
  import opened JsonValues
  import opened SharedMerge
  import opened Objects
  import opened ArrManager
  import opened ArrPlans
  import opened ArrConvergence
  import opened ArrDryRun
  import opened ArrFrames

  /** A value that resolving and merging take over as it is. */
  predicate Literal(value: Json) {
    !value.Obj? && !value.Arr?
  }

  /** Both declare a literal for the key, but not the same. */
  predicate Disagree(r: Resource, other: Resource, key: string) {
    && key in Declared(r) && key in Declared(other)
    && Literal(Declared(r)[key]) && Literal(Declared(other)[key]) && Declared(r)[key] != Declared(other)[key]
  }

  // ---------------------------------------------------------------- a run that writes nothing

  lemma MergedIntoItself(o: Object, values: Object, key: string)
    requires key in values && Literal(values[key])
    ensures Merge(o, values) == Ok(o) ==> Get(o, key) == values[key]
  {
    assert MergeAt(o, key, values[key]) == Ok(values[key]);
  }

  /** A step that writes nothing has decided to leave its object. */
  lemma LeavesObject(run: Run, config: Config, r: Resource, next: Run) returns (values: Object)
    requires Apply(run, config, r, false) == Ok(next) && next.writes == run.writes
    ensures ValuesOf(run.server, {}, r) == Ok(values) && Decide(run.server, config, r, values) == Ok(Leave)
  {
    values := ValuesOf(run.server, {}, r).value;
  }

  lemma LeftAsMerged(server: Server, config: Config, r: Resource, values: Object, x: nat)
    requires config.managed && Decide(server, config, r, values) == Ok(Leave)
    requires x < |server.Collection(r.endpoint)| && Satisfies(server.Collection(r.endpoint)[x], Pattern(r))
    ensures Merge(server.Collection(r.endpoint)[x], values) == Ok(server.Collection(r.endpoint)[x])
  {
    SearchMeans(server.Collection(r.endpoint), Pattern(r));
  }

  lemma LiteralValue(server: Server, r: Resource, values: Object, key: string)
    requires ValuesOf(server, {}, r) == Ok(values) && "_lookup" !in Declared(r)
    requires key in Declared(r) && Literal(Declared(r)[key])
    ensures key in values && values[key] == Declared(r)[key]
  {
    assert Resolve(server, {}, Declared(r)[key]) == Ok(Declared(r)[key]);
  }

  /** A managed step that writes nothing has found its object as declared. */
  lemma WrotelessStep(run: Run, config: Config, r: Resource, next: Run, x: nat, key: string)
    requires config.managed && Apply(run, config, r, false) == Ok(next) && next.writes == run.writes
    requires x < |run.server.Collection(r.endpoint)| && Satisfies(run.server.Collection(r.endpoint)[x], Pattern(r))
    requires key in Declared(r) && Literal(Declared(r)[key])
    ensures Get(run.server.Collection(r.endpoint)[x], key) == Declared(r)[key]
  {
    NoTopLevelLookup(run, config, r);
    var values := LeavesObject(run, config, r, next);
    LeftAsMerged(run.server, config, r, values, x);
    LiteralValue(run.server, r, values, key);
    MergedIntoItself(run.server.Collection(r.endpoint)[x], values, key);
  }

  lemma StepWritesGrow(run: Run, config: Config, r: Resource)
    requires Apply(run, config, r, false).Ok?
    ensures
      var next := Apply(run, config, r, false).value;
      run.writes <= next.writes && (next.writes == run.writes ==> next.server == run.server)
  {
  }

  lemma WritesGrowAt(runs: seq<Run>, config: Config, rs: seq<Resource>, n: nat)
    requires Trace(runs, config, rs) && n < |rs|
    ensures runs[n].writes <= runs[n + 1].writes
    ensures runs[n].writes == runs[n + 1].writes ==> runs[n].server == runs[n + 1].server
  {
    assert StepAt(runs, config, rs, n);
    StepWritesGrow(runs[n], config, rs[n]);
  }

  /** If nothing was written up to a step, the server is still the first one. */
  lemma {:induction false} WritesGrow(runs: seq<Run>, config: Config, rs: seq<Resource>, n: nat, m: nat)
    requires Trace(runs, config, rs) && n <= m <= |rs|
    ensures runs[n].writes <= runs[m].writes
    ensures runs[n].writes == runs[m].writes ==> runs[n].server == runs[m].server
    decreases m
  {
    if n < m {
      WritesGrow(runs, config, rs, n, m - 1);
      WritesGrowAt(runs, config, rs, m - 1);
    }
  }

  lemma WrotelessAt(runs: seq<Run>, config: Config, rs: seq<Resource>, n: nat, x: nat, key: string)
    requires config.managed && Trace(runs, config, rs) && n < |rs| && runs[n + 1].writes == runs[n].writes
    requires x < |runs[n].server.Collection(rs[n].endpoint)|
    requires Satisfies(runs[n].server.Collection(rs[n].endpoint)[x], Pattern(rs[n]))
    requires key in Declared(rs[n]) && Literal(Declared(rs[n])[key])
    ensures Get(runs[n].server.Collection(rs[n].endpoint)[x], key) == Declared(rs[n])[key]
  {
    ValidAt(runs, config, rs, n);
    assert StepAt(runs, config, rs, n);
    WrotelessStep(runs[n], config, rs[n], runs[n + 1], x, key);
  }

  lemma WrotelessTrace(runs: seq<Run>, config: Config, rs: seq<Resource>, n: nat, x: nat, key: string)
    requires config.managed && Trace(runs, config, rs) && n < |rs| && runs[|rs|].writes == runs[0].writes
    requires x < |runs[0].server.Collection(rs[n].endpoint)|
    requires Satisfies(runs[0].server.Collection(rs[n].endpoint)[x], Pattern(rs[n]))
    requires key in Declared(rs[n]) && Literal(Declared(rs[n])[key])
    ensures Get(runs[0].server.Collection(rs[n].endpoint)[x], key) == Declared(rs[n])[key]
  {
    WritesGrow(runs, config, rs, 0, n);
    WritesGrow(runs, config, rs, n, n + 1);
    WritesGrow(runs, config, rs, n + 1, |rs|);
    WrotelessAt(runs, config, rs, n, x, key);
  }

  /** A managed run over a server where one object has to satisfy two resources that disagree writes something. */
  lemma DisagreeingNeverQuiet(server: Server, config: Config, i: nat, j: nat, key: string, m: nat)
    requires config.managed && server.Valid() && forall r | r in config.resources :: "id" !in r.values
    requires i < |config.resources| && j < |config.resources|
    requires Disagree(config.resources[i], config.resources[j], key)
    requires Contested(server, config.resources[i], config.resources[j])
    ensures RunAll(server, config, false) != Ok(Quiet(server, m))
  {
    var rs := config.resources;
    if RunAll(server, config, false) == Ok(Quiet(server, m)) {
      var settled := RunPolicies(Start(server), config, config.policies, false).value;
      PoliciesLeaveObjects(Start(server), config, config.policies, false);
      SettingsAside(server, settled.server.settings);
      var runs := RunTrace(settled, config, rs);
      WritesGrow(runs, config, rs, 0, |rs|);
      var x :| 0 <= x < |server.Collection(rs[i].endpoint)|
        && Satisfies(server.Collection(rs[i].endpoint)[x], Pattern(rs[i]))
        && Satisfies(server.Collection(rs[i].endpoint)[x], Pattern(rs[j]));
      WrotelessTrace(runs, config, rs, i, x, key);
      WrotelessTrace(runs, config, rs, j, x, key);
    }
  }

  // ---------------------------------------------------------------- the disagreement lasts

  /** Whatever the plan declares for a match key of the resource is what its match asks for. */
  predicate KeepsMatch(rs: seq<Resource>, r: Resource) {
    forall n, key | 0 <= n < |rs| && rs[n].endpoint == r.endpoint && key in Pattern(r) && key in Declared(rs[n]) ::
      Declared(rs[n])[key] == Pattern(r)[key]
  }

  lemma StepKeepsMatch(before: Server, after: Server, rs: seq<Resource>, n: nat, values: Object, base: Object, t: nat,
        r: Resource, x: nat)
    requires n < |rs| && before.Valid() && "_lookup" !in Declared(rs[n]) && KeepsMatch(rs, r)
    requires Wrote(before, after, rs[n], values, base, t) && rs[n].endpoint == r.endpoint
    requires x < |before.Collection(r.endpoint)| && Satisfies(before.Collection(r.endpoint)[x], Pattern(r))
    ensures x < |after.Collection(r.endpoint)| && Satisfies(after.Collection(r.endpoint)[x], Pattern(r))
  {
    SearchMeans(before.Collection(r.endpoint), Pattern(rs[n]));
    forall key | key in Pattern(r) && x == t
      ensures Get(after.Collection(r.endpoint)[x], key) == Pattern(r)[key]
    {
      ResolvedText(before, rs[n], values, key);
      if key in values {
        assert MergeAt(base, key, values[key]) == Ok(values[key]);
      }
    }
  }

  lemma KeepsMatchAt(runs: seq<Run>, config: Config, rs: seq<Resource>, n: nat, r: Resource, x: nat)
    requires config.managed && Trace(runs, config, rs) && n < |rs| && KeepsMatch(rs, r)
    requires x < |runs[n].server.Collection(r.endpoint)|
    requires Satisfies(runs[n].server.Collection(r.endpoint)[x], Pattern(r))
    ensures x < |runs[n + 1].server.Collection(r.endpoint)|
    ensures Satisfies(runs[n + 1].server.Collection(r.endpoint)[x], Pattern(r))
  {
    TraceEffect(runs, config, rs, n + 1);
    if rs[n].endpoint == r.endpoint {
      var values, base, t := TraceWrote(runs, config, rs, n);
      StepKeepsMatch(runs[n].server, runs[n + 1].server, rs, n, values, base, t, r, x);
    }
  }

  lemma {:induction false} TraceKeepsMatch(runs: seq<Run>, config: Config, rs: seq<Resource>, m: nat, r: Resource,
        x: nat)
    requires config.managed && Trace(runs, config, rs) && m <= |rs| && KeepsMatch(rs, r)
    requires x < |runs[0].server.Collection(r.endpoint)|
    requires Satisfies(runs[0].server.Collection(r.endpoint)[x], Pattern(r))
    ensures x < |runs[m].server.Collection(r.endpoint)|
    ensures Satisfies(runs[m].server.Collection(r.endpoint)[x], Pattern(r))
  {
    if m > 0 {
      TraceKeepsMatch(runs, config, rs, m - 1, r, x);
      KeepsMatchAt(runs, config, rs, m - 1, r, x);
    }
  }

  /**
   * Two resources match one object and declare different literals for a key of it. As long as the plan moves no object
   * away from their matches, the run after a finished run is not quiet, and nor is any later one: each leaves a server
   * in which the two find one object again.
   */
  lemma DisagreementLasts(server: Server, config: Config, i: nat, j: nat, key: string)
    requires config.managed && server.Valid() && forall r | r in config.resources :: "id" !in r.values
    requires i < |config.resources| && j < |config.resources|
    requires Disagree(config.resources[i], config.resources[j], key)
    requires Contested(server, config.resources[i], config.resources[j])
    requires KeepsMatch(config.resources, config.resources[i]) && KeepsMatch(config.resources, config.resources[j])
    requires RunAll(server, config, false).Ok?
    ensures
      var after := RunAll(server, config, false).value.server;
      && after.Valid() && Contested(after, config.resources[i], config.resources[j])
      && forall m: nat :: RunAll(after, config, false) != Ok(Quiet(after, m))
  {
    var rs := config.resources;
    var settled := RunPolicies(Start(server), config, config.policies, false).value;
    PoliciesLeaveObjects(Start(server), config, config.policies, false);
    SettingsAside(server, settled.server.settings);
    var runs := RunTrace(settled, config, rs);
    var x :| 0 <= x < |server.Collection(rs[i].endpoint)|
      && Satisfies(server.Collection(rs[i].endpoint)[x], Pattern(rs[i]))
      && Satisfies(server.Collection(rs[i].endpoint)[x], Pattern(rs[j]));
    TraceKeepsMatch(runs, config, rs, |rs|, rs[i], x);
    TraceKeepsMatch(runs, config, rs, |rs|, rs[j], x);
    ValidAt(runs, config, rs, |rs|);
    forall m: nat
      ensures RunAll(runs[|rs|].server, config, false) != Ok(Quiet(runs[|rs|].server, m))
    {
      DisagreeingNeverQuiet(runs[|rs|].server, config, i, j, key, m);
    }
  }

  // ---------------------------------------------------------------- a plan that never comes to rest

  const WANTS_ONE := Resource("rootfolder", map["name" := "a"], map["priority" := Num(1)])
  const WANTS_TWO := Resource("rootfolder", map["path" := "p"], map["priority" := Num(2)])

  lemma WantersDeclare()
    ensures Declared(WANTS_ONE) == map["priority" := Num(1), "name" := Str("a")]
    ensures Declared(WANTS_TWO) == map["priority" := Num(2), "path" := Str("p")]
    ensures Pattern(WANTS_ONE) == map["name" := Str("a")] && Pattern(WANTS_TWO) == map["path" := Str("p")]
    ensures Plain(Declared(WANTS_ONE)) && Declared(WANTS_ONE).Keys <= {"priority", "name", "path"}
    ensures Plain(Declared(WANTS_TWO)) && Declared(WANTS_TWO).Keys <= {"priority", "name", "path"}
  {
    assert Declared(WANTS_ONE) == map["priority" := Num(1), "name" := Str("a")];
    assert Declared(WANTS_TWO) == map["priority" := Num(2), "path" := Str("p")];
    assert Pattern(WANTS_ONE) == map["name" := Str("a")] && Pattern(WANTS_TWO) == map["path" := Str("p")];
  }

  /** Both match the stored object, whoever had it last. */
  lemma WantersMatch()
    ensures
      var two, one := STORED["priority" := Num(2)], STORED["priority" := Num(1)];
      && Satisfies(two, Pattern(WANTS_ONE)) && Satisfies(two, Pattern(WANTS_TWO)) && Satisfies(one, Pattern(WANTS_TWO))
      && two + Declared(WANTS_ONE) == one && one + Declared(WANTS_TWO) == two && one != two
    ensures Disagree(WANTS_ONE, WANTS_TWO, "priority")
  {
    var two, one := STORED["priority" := Num(2)], STORED["priority" := Num(1)];
    WantersDeclare();
    assert one["priority"] != two["priority"];
  }

  lemma WantersContest(o: Object)
    requires Satisfies(o, Pattern(WANTS_ONE)) && Satisfies(o, Pattern(WANTS_TWO))
    ensures Contested(Holding(o), WANTS_ONE, WANTS_TWO)
  {
    assert Holding(o).Collection("rootfolder")[0] == o;
  }

  lemma WantersAreSupported(config: Config)
    ensures Supported(config, WANTS_ONE) && Supported(config, WANTS_TWO)
  {
    assert "name" in WANTS_ONE.match_ && "path" in WANTS_TWO.match_;
  }

  function Holding(o: Object): Server {
    Server(map[], map["rootfolder" := [o]], map[], 2)
  }

  lemma Pulled(run: Run, config: Config, r: Resource, stored: Object, wanted: Object)
    requires config.managed && Supported(config, r) && r.endpoint == "rootfolder" && run.server == Holding(stored)
    requires Plain(Declared(r)) && Declared(r).Keys <= {"priority", "name", "path"}
    requires Satisfies(stored, Pattern(r)) && stored + Declared(r) == wanted != stored && Get(stored, "id") == Num(1)
    ensures
      var next := Apply(run, config, r, false);
      && next.Ok? && next.value.server == Holding(wanted)
      && next.value.counts == run.counts.(updated := run.counts.updated + 1)
  {
    StepOnOne(run, config, r, stored, false);
    PutHolds(stored, wanted);
  }

  lemma PutHolds(stored: Object, wanted: Object)
    requires Get(stored, "id") == Num(1)
    ensures Holding(stored).Put("rootfolder", Num(1), wanted) == Holding(wanted)
  {
    var objects := [stored];
    assert [wanted] ==
        seq(1, i requires 0 <= i < 1 => if Get(objects[i], "id") == Num(1) then wanted else objects[i]);
    var collections: map<string, seq<Object>> := map["rootfolder" := objects];
    assert collections["rootfolder" := [wanted]] == map["rootfolder" := [wanted]];
  }

  /** Every run rewrites the one object twice and leaves the server as it found it. */
  lemma TugOfWar()
    ensures
      var server := Holding(STORED["priority" := Num(2)]);
      var config := Config(true, false, [], [WANTS_ONE, WANTS_TWO]);
      && Disagree(WANTS_ONE, WANTS_TWO, "priority") && Contested(server, WANTS_ONE, WANTS_TWO)
      && RunAll(server, config, false).Ok?
      && RunAll(server, config, false).value.server == server && RunAll(server, config, false).value.writes == 2
  {
    var two, one := STORED["priority" := Num(2)], STORED["priority" := Num(1)];
    var server := Holding(two);
    var config := Config(true, false, [], [WANTS_ONE, WANTS_TWO]);
    WantersDeclare();
    WantersMatch();
    WantersContest(two);
    WantersAreSupported(config);
    Pulled(Start(server), config, WANTS_ONE, two, one);
    var once := Apply(Start(server), config, WANTS_ONE, false).value;
    Pulled(once, config, WANTS_TWO, one, two);
    TwoSteps(server, config, WANTS_ONE, WANTS_TWO, false);
    CountsAddUp(server, config, false);
  }
}
