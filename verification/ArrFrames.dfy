/**
 * What a whole run leaves alone: objects that no match finds, whatever the declarations do not mention at any depth,
 * and in bootstrap mode everything that exists.
 */
module ArrFrames {
  import opened JsonValues
  import opened SharedMerge
  import opened Objects
  import opened ArrManager
  import opened ArrPlans
  import opened ArrConvergence

  // ---------------------------------------------------------------- objects that are not found

  /** The object satisfies no match of the plan. */
  ghost predicate Unmatched(o: Object, endpoint: string, rs: seq<Resource>) {
    forall n | 0 <= n < |rs| && rs[n].endpoint == endpoint :: !Satisfies(o, Pattern(rs[n]))
  }

  /** An object that no match so far finds is what it was at the start. */
  lemma {:induction false} TraceKeepsObject(runs: seq<Run>, config: Config, rs: seq<Resource>, m: nat, e: string,
        i: nat)
    requires Trace(runs, config, rs) && m <= |rs| && i < |runs[0].server.Collection(e)|
    requires Unmatched(runs[0].server.Collection(e)[i], e, rs[..m])
    ensures i < |runs[m].server.Collection(e)| && runs[m].server.Collection(e)[i] == runs[0].server.Collection(e)[i]
  {
    if m > 0 {
      assert rs[..m][m - 1] == rs[m - 1] && forall k | 0 <= k < m - 1 :: rs[..m][k] == rs[..m - 1][k];
      TraceKeepsObject(runs, config, rs, m - 1, e, i);
      TraceEffect(runs, config, rs, m);
      EffectKeepsObject(runs[m - 1].server, runs[m].server, rs[m - 1], e, i);
    }
  }

  lemma EffectKeepsObject(before: Server, after: Server, r: Resource, e: string, i: nat)
    requires Effect(before, after, r) && i < |before.Collection(e)|
    requires r.endpoint == e ==> !Satisfies(before.Collection(e)[i], Pattern(r))
    ensures i < |after.Collection(e)| && after.Collection(e)[i] == before.Collection(e)[i]
  {
    var b, a := before.Collection(e), after.Collection(e);
    if a != b && Extended(b, a, Pattern(r), before.nextId) {
      assert a[i] == a[..|b|][i];
    }
  }

  /** Objects that a run adds satisfy a match of the plan. */
  lemma {:induction false} TraceAdds(runs: seq<Run>, config: Config, rs: seq<Resource>, m: nat, e: string, i: nat)
    requires Trace(runs, config, rs) && m <= |rs|
    requires |runs[0].server.Collection(e)| <= i < |runs[m].server.Collection(e)|
    ensures !Unmatched(runs[m].server.Collection(e)[i], e, rs)
  {
    var b, a := runs[m - 1].server.Collection(e), runs[m].server.Collection(e);
    if i < |b| && a[i] == b[i] {
      TraceAdds(runs, config, rs, m - 1, e, i);
    } else {
      TraceEffect(runs, config, rs, m);
      EffectChangesMatched(runs[m - 1].server, runs[m].server, rs[m - 1], e, i);
    }
  }

  lemma EffectChangesMatched(before: Server, after: Server, r: Resource, e: string, i: nat)
    requires Effect(before, after, r) && i < |after.Collection(e)|
    requires i < |before.Collection(e)| ==> after.Collection(e)[i] != before.Collection(e)[i]
    ensures r.endpoint == e && Satisfies(after.Collection(e)[i], Pattern(r))
  {
    var b, a := before.Collection(e), after.Collection(e);
    assert Extended(b, a, Pattern(r), before.nextId) ==> forall j | 0 <= j < |b| :: a[j] == a[..|b|][j];
  }

  lemma {:induction false} TraceGrows(runs: seq<Run>, config: Config, rs: seq<Resource>, m: nat, e: string)
    requires Trace(runs, config, rs) && m <= |rs|
    ensures |runs[0].server.Collection(e)| <= |runs[m].server.Collection(e)|
  {
    if m > 0 {
      TraceGrows(runs, config, rs, m - 1, e);
      TraceEffect(runs, config, rs, m);
    }
  }

  // ---------------------------------------------------------------- what was not declared for a found object

  /** If the resource finds the object at this place, its resolved values do not touch the path. */
  predicate SparedBy(before: Result<Run>, r: Resource, e: string, i: nat, path: seq<string>) {
    && before.Ok? && r.endpoint == e && i < |before.value.server.Collection(e)|
    && Satisfies(before.value.server.Collection(e)[i], Pattern(r)) && ValuesOf(before.value.server, {}, r).Ok?
    ==> Undeclared(ValuesOf(before.value.server, {}, r).value, path)
  }

  /** No resource that finds the object when its turn comes declares anything at, above or below the path. */
  ghost predicate Spared(run: Run, config: Config, rs: seq<Resource>, e: string, i: nat, path: seq<string>) {
    forall n | 0 <= n < |rs| :: SparedBy(RunResources(run, config, rs[..n], false), rs[n], e, i, path)
  }

  lemma WroteKeepsPath(before: Server, after: Server, r: Resource, values: Object, base: Object, t: nat, i: nat,
        path: seq<string>)
    requires Wrote(before, after, r, values, base, t) && i < |before.Collection(r.endpoint)|
    requires Satisfies(before.Collection(r.endpoint)[i], Pattern(r)) ==> Undeclared(values, path)
    ensures i < |after.Collection(r.endpoint)|
    ensures At(Obj(after.Collection(r.endpoint)[i]), path) == At(Obj(before.Collection(r.endpoint)[i]), path)
  {
    SearchMeans(before.Collection(r.endpoint), Pattern(r));
    if i == t {
      MergeKeepsUndeclared(base, values, path);
    }
  }

  lemma StepKeepsPath(runs: seq<Run>, config: Config, rs: seq<Resource>, n: nat, e: string, i: nat,
        path: seq<string>)
    requires Trace(runs, config, rs) && n < |rs| && i < |runs[n].server.Collection(e)|
    requires SparedBy(Ok(runs[n]), rs[n], e, i, path)
    ensures i < |runs[n + 1].server.Collection(e)|
    ensures At(Obj(runs[n + 1].server.Collection(e)[i]), path) == At(Obj(runs[n].server.Collection(e)[i]), path)
  {
    if rs[n].endpoint != e {
      TraceEffect(runs, config, rs, n + 1);
    } else if config.managed || Search(runs[n].server.Collection(e), Pattern(rs[n])).Nothing? {
      var values, base, t := TraceWrote(runs, config, rs, n);
      WroteKeepsPath(runs[n].server, runs[n + 1].server, rs[n], values, base, t, i, path);
    } else {
      UnmanagedStep(runs, config, rs, n);
    }
  }

  lemma {:induction false} TraceKeepsPath(runs: seq<Run>, config: Config, rs: seq<Resource>, m: nat, e: string, i: nat,
        path: seq<string>)
    requires Trace(runs, config, rs) && m <= |rs| && i < |runs[0].server.Collection(e)|
    requires forall n | 0 <= n < m :: SparedBy(Ok(runs[n]), rs[n], e, i, path)
    ensures i < |runs[m].server.Collection(e)|
    ensures At(Obj(runs[m].server.Collection(e)[i]), path) == At(Obj(runs[0].server.Collection(e)[i]), path)
  {
    if m > 0 {
      TraceKeepsPath(runs, config, rs, m - 1, e, i, path);
      StepKeepsPath(runs, config, rs, m - 1, e, i, path);
    }
  }

  // ---------------------------------------------------------------- implementations

  /** Rewriting an object does not replace its implementation. */
  lemma RewriteKeepsImplementation(current: Object, values: Object)
    requires Rewrite(current, values).Ok? && Merge(current, values).Ok?
    ensures Get(Merge(current, values).value, "implementation") == Get(current, "implementation")
  {
    if "implementation" in values {
      ImplementationKept(current, values, Merge(current, values).value, Resource("", map[], map[]));
    }
  }

  lemma ManagedRewrite(run: Run, config: Config, r: Resource, next: Run, values: Object, i: nat)
    requires config.managed && Apply(run, config, r, false) == Ok(next) && ValuesOf(run.server, {}, r) == Ok(values)
    requires Search(run.server.Collection(r.endpoint), Pattern(r)) == One(i)
    ensures Rewrite(run.server.Collection(r.endpoint)[i], values).Ok?
  {
  }

  lemma StepKeepsImplementation(runs: seq<Run>, config: Config, rs: seq<Resource>, n: nat, e: string, i: nat)
    requires Trace(runs, config, rs) && n < |rs| && i < |runs[n].server.Collection(e)|
    ensures i < |runs[n + 1].server.Collection(e)|
    ensures Get(runs[n + 1].server.Collection(e)[i], "implementation") ==
        Get(runs[n].server.Collection(e)[i], "implementation")
  {
    TraceEffect(runs, config, rs, n + 1);
    var b := runs[n].server.Collection(e);
    if rs[n].endpoint == e {
      if !config.managed && !Search(b, Pattern(rs[n])).Nothing? {
        UnmanagedStep(runs, config, rs, n);
      } else {
        var values, base, t := TraceWrote(runs, config, rs, n);
        if i == t {
          assert StepAt(runs, config, rs, n);
          ManagedRewrite(runs[n], config, rs[n], runs[n + 1], values, i);
          RewriteKeepsImplementation(b[i], values);
        }
      }
    }
  }

  lemma {:induction false} TraceKeepsImplementation(runs: seq<Run>, config: Config, rs: seq<Resource>, m: nat,
        e: string, i: nat)
    requires Trace(runs, config, rs) && m <= |rs| && i < |runs[0].server.Collection(e)|
    ensures i < |runs[m].server.Collection(e)|
    ensures Get(runs[m].server.Collection(e)[i], "implementation") ==
        Get(runs[0].server.Collection(e)[i], "implementation")
  {
    if m > 0 {
      TraceKeepsImplementation(runs, config, rs, m - 1, e, i);
      StepKeepsImplementation(runs, config, rs, m - 1, e, i);
    }
  }

  /**
   * Any real run. Objects keep their places and implementations; one that no match finds stays identical; each keeps
   * its value at every path that the resources finding it do not declare; and each new one was asked for.
   */
  lemma RunFrames(run: Run, config: Config, rs: seq<Resource>, e: string, i: nat)
    requires run.server.Valid() && RunResources(run, config, rs, false).Ok?
    requires forall n | 0 <= n < |rs| :: "id" !in rs[n].values
    ensures
      var b, a := run.server.Collection(e), RunResources(run, config, rs, false).value.server.Collection(e);
      && |b| <= |a|
      && (i < |b| && Unmatched(b[i], e, rs) ==> a[i] == b[i])
      && (i < |b| ==> forall path | Spared(run, config, rs, e, i, path) :: At(Obj(a[i]), path) == At(Obj(b[i]), path))
      && (i < |b| ==> Get(a[i], "implementation") == Get(b[i], "implementation"))
      && (|b| <= i < |a| ==> !Unmatched(a[i], e, rs))
  {
    var runs := RunTrace(run, config, rs);
    var b, a := run.server.Collection(e), runs[|rs|].server.Collection(e);
    TraceGrows(runs, config, rs, |rs|, e);
    assert rs[..|rs|] == rs;
    if i < |b| {
      TraceKeepsImplementation(runs, config, rs, |rs|, e, i);
      if Unmatched(b[i], e, rs) {
        TraceKeepsObject(runs, config, rs, |rs|, e, i);
      }
      forall path | Spared(run, config, rs, e, i, path)
        ensures At(Obj(a[i]), path) == At(Obj(b[i]), path)
      {
        SparedSteps(run, config, rs, runs, e, i, path);
        TraceKeepsPath(runs, config, rs, |rs|, e, i, path);
      }
    } else if i < |a| {
      TraceAdds(runs, config, rs, |rs|, e, i);
    }
  }

  lemma SparedSteps(run: Run, config: Config, rs: seq<Resource>, runs: seq<Run>, e: string, i: nat,
        path: seq<string>)
    requires Spared(run, config, rs, e, i, path) && |runs| == |rs| + 1
    requires forall n {:trigger runs[n]} | 0 <= n <= |rs| :: RunResources(run, config, rs[..n], false) == Ok(runs[n])
    ensures forall n | 0 <= n < |rs| :: SparedBy(Ok(runs[n]), rs[n], e, i, path)
  {
    forall n | 0 <= n < |rs|
      ensures SparedBy(Ok(runs[n]), rs[n], e, i, path)
    {
      assert SparedBy(RunResources(run, config, rs[..n], false), rs[n], e, i, path);
      assert RunResources(run, config, rs[..n], false) == Ok(runs[n]);
    }
  }

  // ---------------------------------------------------------------- where every object ends when results stay apart

  lemma TraceWrote(runs: seq<Run>, config: Config, rs: seq<Resource>, n: nat)
    returns (values: Object, base: Object, t: nat)
    requires Trace(runs, config, rs) && n < |rs|
    requires config.managed || Search(runs[n].server.Collection(rs[n].endpoint), Pattern(rs[n])).Nothing?
    ensures Wrote(runs[n].server, runs[n + 1].server, rs[n], values, base, t) && "_lookup" !in Declared(rs[n])
  {
    ValidAt(runs, config, rs, n);
    assert StepAt(runs, config, rs, n);
    values, base, t := StepWrote(runs[n], config, rs[n], runs[n + 1]);
  }

  /** The object of one resource alone stays as that resource left it. */
  lemma {:induction false} AloneStays(runs: seq<Run>, config: Config, rs: seq<Resource>, m: nat, n: nat, i: nat)
    requires Trace(runs, config, rs) && n < m <= |rs| && i < |runs[n + 1].server.Collection(rs[n].endpoint)|
    requires Alone(rs, n, runs[n + 1].server.Collection(rs[n].endpoint)[i])
    ensures
      var e := rs[n].endpoint;
      i < |runs[m].server.Collection(e)| && runs[m].server.Collection(e)[i] == runs[n + 1].server.Collection(e)[i]
    decreases m
  {
    if n + 1 < m {
      AloneStays(runs, config, rs, m - 1, n, i);
      TraceEffect(runs, config, rs, m);
      EffectKeepsObject(runs[m - 1].server, runs[m].server, rs[m - 1], rs[n].endpoint, i);
    }
  }

  /** The step writes to the object that it finds. */
  lemma WroteWhereFound(before: Server, after: Server, r: Resource, values: Object, base: Object, t: nat, i: nat)
    requires Wrote(before, after, r, values, base, t) && i < |before.Collection(r.endpoint)|
    requires Satisfies(before.Collection(r.endpoint)[i], Pattern(r))
    ensures i == t && after.Collection(r.endpoint)[i] == Merge(before.Collection(r.endpoint)[i], values).value
  {
    SearchMeans(before.Collection(r.endpoint), Pattern(r));
  }

  lemma TraceMerges(runs: seq<Run>, config: Config, rs: seq<Resource>, n: nat, i: nat)
    requires config.managed && Trace(runs, config, rs) && n < |rs| && forall k | 0 <= k < |rs| :: Keyed(rs[k])
    requires ResultsApart(runs[0].server, config.managed, rs) && i < |runs[0].server.Collection(rs[n].endpoint)|
    requires Satisfies(runs[0].server.Collection(rs[n].endpoint)[i], Pattern(rs[n]))
    requires Unmatched(runs[0].server.Collection(rs[n].endpoint)[i], rs[n].endpoint, rs[..n])
    ensures
      var e, after := rs[n].endpoint, runs[|rs|].server;
      && ValuesOf(after, {}, rs[n]).Ok? && i < |after.Collection(e)|
      && Merge(runs[0].server.Collection(e)[i], ValuesOf(after, {}, rs[n]).value) == Ok(after.Collection(e)[i])
  {
    TraceKeepsObject(runs, config, rs, n, rs[n].endpoint, i);
    TraceOriginates(runs, config, rs, n);
    var values, base, t := StepAlone(runs, config, rs, n);
    WroteWhereFound(runs[n].server, runs[n + 1].server, rs[n], values, base, t, i);
    AloneStays(runs, config, rs, |rs|, n, i);
    ValuesStay(runs, config, rs, |rs|, n, rs[n]);
  }

  /**
   * A managed run whose results stay apart merges the first resource that matches an object into it, and no other:
   * in the end the object is the merge of what it was with the resolved declaration. So it keeps its value at every
   * path that this one declaration does not mention, and every schema field that it does not name.
   */
  lemma RunMerges(run: Run, config: Config, rs: seq<Resource>, n: nat, i: nat)
    requires config.managed && run.server.Valid() && RunResources(run, config, rs, false).Ok?
    requires (forall k | 0 <= k < |rs| :: Keyed(rs[k])) && ResultsApart(run.server, config.managed, rs)
    requires n < |rs| && i < |run.server.Collection(rs[n].endpoint)|
    requires Satisfies(run.server.Collection(rs[n].endpoint)[i], Pattern(rs[n]))
    requires Unmatched(run.server.Collection(rs[n].endpoint)[i], rs[n].endpoint, rs[..n])
    ensures
      var e, after := rs[n].endpoint, RunResources(run, config, rs, false).value.server;
      && ValuesOf(after, {}, rs[n]).Ok? && i < |after.Collection(e)|
      && var values, was, now := ValuesOf(after, {}, rs[n]).value, run.server.Collection(e)[i], after.Collection(e)[i];
         && Merge(was, values) == Ok(now)
         && (forall path | Undeclared(values, path) :: At(Obj(now), path) == At(Obj(was), path))
         && ("fields" in values && values["fields"].Obj? && "fields" in was && was["fields"].Arr? ==>
             && "fields" in now && now["fields"].Arr?
             && FieldsFramed(was["fields"].items, now["fields"].items, values["fields"].fields))
  {
    var runs := RunTrace(run, config, rs);
    TraceMerges(runs, config, rs, n, i);
    var values := ValuesOf(runs[|rs|].server, {}, rs[n]).value;
    MergeFrames(run.server.Collection(rs[n].endpoint)[i], values);
  }

  lemma MergeFrames(was: Object, values: Object)
    requires Merge(was, values).Ok?
    ensures
      var now := Merge(was, values).value;
      && (forall path | Undeclared(values, path) :: At(Obj(now), path) == At(Obj(was), path))
      && ("fields" in values && values["fields"].Obj? && "fields" in was && was["fields"].Arr? ==>
          && "fields" in now && now["fields"].Arr?
          && FieldsFramed(was["fields"].items, now["fields"].items, values["fields"].fields))
  {
    var now := Merge(was, values).value;
    forall path | Undeclared(values, path)
      ensures At(Obj(now), path) == At(Obj(was), path)
    {
      MergeKeepsUndeclared(was, values, path);
    }
    if "fields" in values && values["fields"].Obj? && "fields" in was && was["fields"].Arr? {
      assert MergeAt(was, "fields", values["fields"]).Ok?;
      MergeFieldsFrame(was["fields"].items, values["fields"].fields);
    }
  }

  /** The step during which the place was filled. */
  lemma {:induction false} FilledAt(runs: seq<Run>, config: Config, rs: seq<Resource>, m: nat, e: string, i: nat)
    returns (n: nat)
    requires Trace(runs, config, rs) && m <= |rs|
    requires |runs[0].server.Collection(e)| <= i < |runs[m].server.Collection(e)|
    ensures n < m && |runs[n].server.Collection(e)| <= i < |runs[n + 1].server.Collection(e)|
  {
    if i < |runs[m - 1].server.Collection(e)| {
      n := FilledAt(runs, config, rs, m - 1, e, i);
    } else {
      n := m - 1;
    }
  }

  /** Every object that a run adds is, in the end, the merge of one resolved declaration into its template. */
  lemma RunCreates(run: Run, config: Config, rs: seq<Resource>, e: string, i: nat)
    returns (n: nat, template: Object, id: int)
    requires run.server.Valid() && RunResources(run, config, rs, false).Ok?
    requires (forall k | 0 <= k < |rs| :: Keyed(rs[k])) && ResultsApart(run.server, config.managed, rs)
    requires
      |run.server.Collection(e)| <= i < |RunResources(run, config, rs, false).value.server.Collection(e)|
    ensures n < |rs| && rs[n].endpoint == e && run.server.nextId <= id
    ensures
      var after := RunResources(run, config, rs, false).value.server;
      && ValuesOf(after, {}, rs[n]).Ok?
      && var values := ValuesOf(after, {}, rs[n]).value;
         && Template(run.server, e, values) == Ok(template)
         && Merge(template, values).Ok? && after.Collection(e)[i] == Stored(Merge(template, values).value, id)
  {
    var runs := RunTrace(run, config, rs);
    n := FilledAt(runs, config, rs, |rs|, e, i);
    FillingStep(runs, config, rs, n, e, i);
    TraceOriginates(runs, config, rs, n);
    var values, base, t := StepAlone(runs, config, rs, n);
    template, id := base, runs[n].server.nextId;
    TraceSettings(runs, config, rs, n);
    TraceIds(runs, config, rs, n);
    assert runs[n].server.Schemas(e) == run.server.Schemas(e);
    AloneStays(runs, config, rs, |rs|, n, i);
    ValuesStay(runs, config, rs, |rs|, n, rs[n]);
  }

  lemma FillingStep(runs: seq<Run>, config: Config, rs: seq<Resource>, n: nat, e: string, i: nat)
    requires Trace(runs, config, rs) && n < |rs|
    requires |runs[n].server.Collection(e)| <= i < |runs[n + 1].server.Collection(e)|
    ensures rs[n].endpoint == e && i == |runs[n].server.Collection(e)|
    ensures Search(runs[n].server.Collection(e), Pattern(rs[n])).Nothing?
  {
    TraceEffect(runs, config, rs, n + 1);
  }

  lemma {:induction false} TraceIds(runs: seq<Run>, config: Config, rs: seq<Resource>, m: nat)
    requires Trace(runs, config, rs) && m <= |rs|
    ensures runs[0].server.nextId <= runs[m].server.nextId
  {
    if m > 0 {
      TraceIds(runs, config, rs, m - 1);
      TraceEffect(runs, config, rs, m);
    }
  }

  // ---------------------------------------------------------------- bootstrap mode and settings

  /** Without being managed, a resource that has its object leaves it alone. */
  lemma StepBootstrap(run: Run, config: Config, r: Resource, next: Run, e: string, i: nat)
    requires !config.managed && run.server.Valid() && "id" !in r.values
    requires ResourceSteps(config, false)(run, r) == Ok(next)
    requires i < |run.server.Collection(e)|
    ensures i < |next.server.Collection(e)| && next.server.Collection(e)[i] == run.server.Collection(e)[i]
  {
    var b := run.server.Collection(r.endpoint);
    if Search(b, Pattern(r)).Nothing? {
      ApplyEffect(run, config, r);
      SearchMeans(b, Pattern(r));
      EffectKeepsObject(run.server, next.server, r, e, i);
    }
  }

  lemma {:induction false} TraceBootstraps(runs: seq<Run>, config: Config, rs: seq<Resource>, m: nat, e: string, i: nat)
    requires !config.managed && Trace(runs, config, rs) && m <= |rs| && i < |runs[0].server.Collection(e)|
    ensures i < |runs[m].server.Collection(e)| && runs[m].server.Collection(e)[i] == runs[0].server.Collection(e)[i]
  {
    if m > 0 {
      TraceBootstraps(runs, config, rs, m - 1, e, i);
      StepAtBootstraps(runs, config, rs, m - 1, e, i);
    }
  }

  lemma StepAtBootstraps(runs: seq<Run>, config: Config, rs: seq<Resource>, n: nat, e: string, i: nat)
    requires !config.managed && Trace(runs, config, rs) && n < |rs| && i < |runs[n].server.Collection(e)|
    ensures i < |runs[n + 1].server.Collection(e)|
    ensures runs[n + 1].server.Collection(e)[i] == runs[n].server.Collection(e)[i]
  {
    ValidAt(runs, config, rs, n);
    assert StepAt(runs, config, rs, n);
    StepBootstrap(runs[n], config, rs[n], runs[n + 1], e, i);
  }

  /** A bootstrap run creates what is missing and leaves every existing object identical. */
  lemma BootstrapKeeps(run: Run, config: Config, rs: seq<Resource>, e: string, i: nat)
    requires !config.managed && run.server.Valid() && RunResources(run, config, rs, false).Ok?
    requires (forall n | 0 <= n < |rs| :: "id" !in rs[n].values) && i < |run.server.Collection(e)|
    ensures
      var after := RunResources(run, config, rs, false).value.server.Collection(e);
      i < |after| && after[i] == run.server.Collection(e)[i]
  {
    var runs := RunTrace(run, config, rs);
    TraceBootstraps(runs, config, rs, |rs|, e, i);
  }

  lemma PolicyKeepsPath(run: Run, config: Config, p: Policy, endpoint: string, path: seq<string>)
    requires ApplyPolicy(run, config, p, false).Ok? && endpoint in run.server.settings
    requires p.endpoint == endpoint ==> Undeclared(p.declared, path)
    ensures
      var after := ApplyPolicy(run, config, p, false).value.server;
      && endpoint in after.settings
      && At(Obj(after.settings[endpoint]), path) == At(Obj(run.server.settings[endpoint]), path)
  {
    if p.endpoint == endpoint && p.declared != map[] {
      MergeKeepsUndeclared(run.server.settings[endpoint], p.declared, path);
    }
  }

  /** Settings sections keep their value at every path that no declaration for them mentions. */
  lemma {:induction false} PoliciesFrame(run: Run, config: Config, ps: seq<Policy>, endpoint: string, path: seq<string>)
    requires RunPolicies(run, config, ps, false).Ok? && endpoint in run.server.settings
    requires forall n | 0 <= n < |ps| && ps[n].endpoint == endpoint :: Undeclared(ps[n].declared, path)
    ensures
      var after := RunPolicies(run, config, ps, false).value.server;
      && endpoint in after.settings
      && At(Obj(after.settings[endpoint]), path) == At(Obj(run.server.settings[endpoint]), path)
  {
    if ps != [] {
      PoliciesFrame(run, config, ps[..|ps| - 1], endpoint, path);
      PolicyKeepsPath(RunPolicies(run, config, ps[..|ps| - 1], false).value, config, ps[|ps| - 1], endpoint, path);
    }
  }

  /** In bootstrap mode no settings section is written. */
  lemma {:induction false} BootstrapSettings(run: Run, config: Config, ps: seq<Policy>, dry: bool)
    requires !config.managed && RunPolicies(run, config, ps, dry).Ok?
    ensures
      var after := RunPolicies(run, config, ps, dry).value;
      after.server == run.server && after.writes == run.writes
  {
    if ps != [] {
      BootstrapSettings(run, config, ps[..|ps| - 1], dry);
    }
  }

  // ---------------------------------------------------------------- runs that are cut off

  /** What holds of a whole plan holds of its beginning. */
  lemma Begins(run: Run, config: Config, rs: seq<Resource>, n: nat, e: string, i: nat)
    requires n <= |rs|
    ensures forall o: Object | Unmatched(o, e, rs) :: Unmatched(o, e, rs[..n])
    ensures forall path | Spared(run, config, rs, e, i, path) :: Spared(run, config, rs[..n], e, i, path)
  {
    forall path | Spared(run, config, rs, e, i, path)
      ensures Spared(run, config, rs[..n], e, i, path)
    {
      forall k | 0 <= k < n
        ensures SparedBy(RunResources(run, config, rs[..n][..k], false), rs[..n][k], e, i, path)
      {
        assert rs[..n][..k] == rs[..k];
        assert SparedBy(RunResources(run, config, rs[..k], false), rs[k], e, i, path);
      }
    }
  }

  /**
   * Objects keep their places and implementations; one that no match finds, and in bootstrap mode any, stays
   * identical; each keeps its value at every path that the resources finding it do not declare; and each new one was
   * asked for.
   */
  ghost predicate Framed(settled: Run, config: Config, e: string, i: nat, b: seq<Object>, a: seq<Object>) {
    && |b| <= |a|
    && (i < |b| && (!config.managed || Unmatched(b[i], e, config.resources)) ==> a[i] == b[i])
    && (i < |b| ==> forall path | Spared(settled, config, config.resources, e, i, path) ::
        At(Obj(a[i]), path) == At(Obj(b[i]), path))
    && (i < |b| ==> Get(a[i], "implementation") == Get(b[i], "implementation"))
    && (|b| <= i < |a| ==> !Unmatched(a[i], e, config.resources))
  }

  lemma PrefixFrames(settled: Run, config: Config, m: nat, e: string, i: nat)
    requires settled.server.Valid() && m <= |config.resources|
    requires RunResources(settled, config, config.resources[..m], false).Ok?
    requires forall k | 0 <= k < |config.resources| :: "id" !in config.resources[k].values
    ensures Framed(settled, config, e, i, settled.server.Collection(e),
        RunResources(settled, config, config.resources[..m], false).value.server.Collection(e))
  {
    Begins(settled, config, config.resources, m, e, i);
    RunFrames(settled, config, config.resources[..m], e, i);
    if !config.managed && i < |settled.server.Collection(e)| {
      BootstrapKeeps(settled, config, config.resources[..m], e, i);
    }
  }

  lemma PartFrames(start: Server, config: Config, settled: Run, m: nat, e: string, i: nat)
    requires start.Valid() && m <= |config.resources|
    requires RunPolicies(Start(start), config, config.policies, false) == Ok(settled)
    requires RunResources(settled, config, config.resources[..m], false).Ok?
    requires forall k | 0 <= k < |config.resources| :: "id" !in config.resources[k].values
    ensures Framed(settled, config, e, i, start.Collection(e),
        RunResources(settled, config, config.resources[..m], false).value.server.Collection(e))
  {
    PoliciesLeaveObjects(Start(start), config, config.policies, false);
    SettingsAside(start, settled.server.settings);
    PrefixFrames(settled, config, m, e, i);
  }

  lemma {:induction false} ResourcesLeaveSettings(run: Run, config: Config, rs: seq<Resource>, dry: bool)
    requires RunResources(run, config, rs, dry).Ok?
    ensures RunResources(run, config, rs, dry).value.server.settings == run.server.settings
  {
    if rs != [] {
      var last := |rs| - 1;
      ResourcesLeaveSettings(run, config, rs[..last], dry);
      ResourceLeavesSettings(RunResources(run, config, rs[..last], dry).value, config, rs[last], dry);
    }
  }

  lemma ResourceLeavesSettings(run: Run, config: Config, r: Resource, dry: bool)
    requires Apply(run, config, r, dry).Ok?
    ensures Apply(run, config, r, dry).value.server.settings == run.server.settings
  {
  }

  lemma PartSettings(start: Server, config: Config, reached: nat)
    requires !config.managed && reached <= |config.policies| + |config.resources|
    requires RunPart(start, config, false, reached).Ok?
    ensures RunPart(start, config, false, reached).value.server.settings == start.settings
  {
    if reached <= |config.policies| {
      BootstrapSettings(Start(start), config, config.policies[..reached], false);
    } else {
      BootstrapSettings(Start(start), config, config.policies, false);
      var settled := RunPolicies(Start(start), config, config.policies, false).value;
      ResourcesLeaveSettings(settled, config, config.resources[..reached - |config.policies|], false);
    }
  }

  /** The frame of any real run, wherever it is cut off; while it settles the policies no object is touched. */
  lemma CutOffFrames(start: Server, config: Config, reached: nat, e: string, i: nat)
    requires start.Valid() && reached <= |config.policies| + |config.resources|
    requires RunPart(start, config, false, reached).Ok?
    requires forall k | 0 <= k < |config.resources| :: "id" !in config.resources[k].values
    ensures
      var a := RunPart(start, config, false, reached).value.server.Collection(e);
      if reached <= |config.policies| then a == start.Collection(e)
      else
        var settled := RunPolicies(Start(start), config, config.policies, false).value;
        Framed(settled, config, e, i, start.Collection(e), a)
    ensures !config.managed ==> RunPart(start, config, false, reached).value.server.settings == start.settings
  {
    if !config.managed {
      PartSettings(start, config, reached);
    }
    if reached <= |config.policies| {
      PoliciesLeaveObjects(Start(start), config, config.policies[..reached], false);
    } else {
      var settled := RunPolicies(Start(start), config, config.policies, false).value;
      ResourcesPart(start, config, false, settled, reached - |config.policies|);
      PartFrames(start, config, settled, reached - |config.policies|, e, i);
    }
  }
}
