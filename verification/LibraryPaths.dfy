/**
 * Replacing the paths of a Jellyfin library one request at a time, with compensation when a request fails. Requests
 * may be refused, and they may take effect without an answer.
 */
module LibraryPaths {

  /** What becomes of a request: answered, refused without effect, or effective but unanswered. */
  datatype Outcome = Done | Failed | Lost

  /** The outcome of a later request; requests beyond the script are answered. */
  function OutcomeAt(script: seq<Outcome>, i: nat): Outcome {
    if i < |script| then script[i] else Done
  }

  function Rest(script: seq<Outcome>, n: nat): seq<Outcome> {
    if n <= |script| then script[n..] else []
  }

  predicate AllDone(script: seq<Outcome>, n: nat) {
    forall i: nat | i < n :: OutcomeAt(script, i).Done?
  }

  function Elements(paths: seq<string>): set<string> {
    set path | path in paths
  }

  lemma ElementsGrow(paths: seq<string>, path: string)
    ensures Elements(paths + [path]) == Elements(paths) + {path}
  {
    var longer := paths + [path];
    assert longer[|paths|] == path;
    assert forall other | other in Elements(paths) + {path} :: other in longer;
  }

  // ---------------------------------------------------------------- the library

  class Library {
    var locations: set<string>
    var options: string
    var script: seq<Outcome>

    /** All states of the locations so far. */
    ghost var history: seq<set<string>>

    constructor (locations: set<string>, options: string, script: seq<Outcome>)
      ensures this.locations == locations && this.options == options && this.script == script && history == [locations]
    {
      this.locations, this.options, this.script, this.history := locations, options, script, [locations];
    }

    ghost predicate Current()
      reads this
    {
      history != [] && history[|history| - 1] == locations
    }

    /** The locations, each once, in some order. */
    method Locations() returns (paths: seq<string>)
      ensures Elements(paths) == locations
    {
      paths := [];
      var rest := locations;
      while rest != {}
        invariant rest <= locations && Elements(paths) == locations - rest
      {
        var path :| path in rest;
        ElementsGrow(paths, path);
        paths := paths + [path];
        rest := rest - {path};
      }
    }

    method Request() returns (effective: bool, answered: bool)
      modifies `script
      ensures answered == OutcomeAt(old(script), 0).Done? && effective == !OutcomeAt(old(script), 0).Failed?
      ensures script == Rest(old(script), 1)
    {
      var outcome := OutcomeAt(script, 0);
      script := Rest(script, 1);
      return !outcome.Failed?, outcome.Done?;
    }

    method Add(path: string) returns (ok: bool)
      modifies `locations, `script, `history
      ensures ok == OutcomeAt(old(script), 0).Done? && script == Rest(old(script), 1)
      ensures locations == if OutcomeAt(old(script), 0).Failed? then old(locations) else old(locations) + {path}
      ensures history == old(history) + [locations]
    {
      var effective;
      effective, ok := Request();
      if effective {
        locations := locations + {path};
      }
      history := history + [locations];
    }

    method Remove(path: string) returns (ok: bool)
      modifies `locations, `script, `history
      ensures ok == OutcomeAt(old(script), 0).Done? && script == Rest(old(script), 1)
      ensures locations == if OutcomeAt(old(script), 0).Failed? then old(locations) else old(locations) - {path}
      ensures history == old(history) + [locations]
    {
      var effective;
      effective, ok := Request();
      if effective {
        locations := locations - {path};
      }
      history := history + [locations];
    }

    method SetOptions(options: string) returns (ok: bool)
      modifies `options, `script
      ensures ok == OutcomeAt(old(script), 0).Done? && script == Rest(old(script), 1)
      ensures this.options == if OutcomeAt(old(script), 0).Failed? then old(this.options) else options
    {
      var effective;
      effective, ok := Request();
      if effective {
        this.options := options;
      }
    }
  }

  /** All states since then contain every original or every declared path. */
  ghost predicate Covered(history: seq<set<string>>, original: set<string>, declared: set<string>) {
    forall i | 0 <= i < |history| :: original <= history[i] || declared <= history[i]
  }

  // ---------------------------------------------------------------- compensation

  /** The re-added paths whose request took effect. */
  function Effective(paths: seq<string>, script: seq<Outcome>): set<string> {
    set i | 0 <= i < |paths| && !OutcomeAt(script, i).Failed? :: paths[i]
  }

  function Reversed(paths: seq<string>): (reversed: seq<string>)
    ensures |reversed| == |paths| && forall i | 0 <= i < |paths| :: reversed[i] == paths[|paths| - 1 - i]
  {
    seq(|paths|, i requires 0 <= i < |paths| => paths[|paths| - 1 - i])
  }

  /** The locations after compensation. */
  function Compensated(locations: set<string>, added: seq<string>, removed: seq<string>,
        script: seq<Outcome>): set<string> {
    locations + Effective(removed, script) - Effective(Reversed(added), Rest(script, |removed|))
  }

  lemma RestAt(script: seq<Outcome>, n: nat, i: nat)
    ensures OutcomeAt(Rest(script, n), i) == OutcomeAt(script, n + i)
    ensures Rest(Rest(script, n), i) == Rest(script, n + i)
  {
  }

  lemma EffectiveStep(paths: seq<string>, script: seq<Outcome>, n: nat)
    requires n < |paths|
    ensures Effective(paths[..n + 1], script) == Effective(paths[..n], script) + if OutcomeAt(script, n).Failed? then {}
        else {paths[n]}
  {
    var longer := paths[..n + 1];
    forall path | path in Effective(paths[..n], script)
      ensures path in Effective(longer, script)
    {
      var i :| 0 <= i < n && !OutcomeAt(script, i).Failed? && paths[..n][i] == path;
      assert longer[i] == path;
    }
    if !OutcomeAt(script, n).Failed? {
      assert longer[n] == paths[n] && paths[n] in Effective(longer, script);
    }
    forall path | path in Effective(longer, script)
      ensures path in Effective(paths[..n], script) || (path == paths[n] && !OutcomeAt(script, n).Failed?)
    {
      var i :| 0 <= i < n + 1 && !OutcomeAt(script, i).Failed? && longer[i] == path;
      if i < n {
        assert paths[..n][i] == path;
      }
    }
  }

  lemma AllEffective(paths: seq<string>, script: seq<Outcome>)
    requires AllDone(script, |paths|)
    ensures Effective(paths, script) == Elements(paths)
  {
    forall path | path in paths
      ensures path in Effective(paths, script)
    {
      var i :| 0 <= i < |paths| && paths[i] == path;
      assert OutcomeAt(script, i).Done?;
    }
  }

  /** What compensation needs so that no state on the way lacks both an original and a declared path. */
  predicate Recoverable(locations: set<string>, added: seq<string>, removed: seq<string>, original: set<string>,
        declared: set<string>) {
    || (declared <= locations && declared !! Elements(added))
    || ((declared <= locations || (original <= locations && removed == [])) &&
        original <= locations + Elements(removed) && original !! Elements(added))
  }

  /** Adds the removed paths again; a failing request does not stop the others. */
  method Readd(library: Library, removed: seq<string>) returns (failed: bool)
    requires library.Current()
    modifies library`locations, library`script, library`history
    ensures failed <==> !AllDone(old(library.script), |removed|)
    ensures library.script == Rest(old(library.script), |removed|)
    ensures library.locations == old(library.locations) + Effective(removed, old(library.script))
    ensures Extends(old(library.history), library.history)
    ensures forall i | |old(library.history)| <= i < |library.history| :: old(library.locations) <= library.history[i]
    ensures removed == [] ==> library.history == old(library.history)
    ensures library.Current()
  {
    failed := false;
    ghost var script := library.script;
    for n := 0 to |removed|
      invariant failed <==> !AllDone(script, n)
      invariant library.script == Rest(script, n) && library.Current()
      invariant library.locations == old(library.locations) + Effective(removed[..n], script)
      invariant Extends(old(library.history), library.history) && (n == 0 ==> library.history == old(library.history))
      invariant forall i | |old(library.history)| <= i < |library.history| ::
          old(library.locations) <= library.history[i]
    {
      RestAt(script, n, 0);
      RestAt(script, n, 1);
      EffectiveStep(removed, script, n);
      var ok := library.Add(removed[n]);
      if !ok {
        failed := true;
      }
    }
    assert removed[..|removed|] == removed;
  }

  /** Removes the added paths again, the last one first. */
  method Unadd(library: Library, added: seq<string>) returns (failed: bool)
    requires library.Current()
    modifies library`locations, library`script, library`history
    ensures failed <==> !AllDone(old(library.script), |added|)
    ensures library.locations == old(library.locations) - Effective(Reversed(added), old(library.script))
    ensures Extends(old(library.history), library.history)
    ensures forall i | |old(library.history)| <= i < |library.history| ::
        old(library.locations) - Elements(added) <= library.history[i]
    ensures library.Current()
  {
    failed := false;
    ghost var script := library.script;
    var undo := Reversed(added);
    for n := 0 to |undo|
      invariant failed <==> !AllDone(script, n)
      invariant library.script == Rest(script, n) && library.Current()
      invariant library.locations == old(library.locations) - Effective(undo[..n], script)
      invariant old(library.locations) - Elements(added) <= library.locations
      invariant Extends(old(library.history), library.history)
      invariant forall i | |old(library.history)| <= i < |library.history| ::
          old(library.locations) - Elements(added) <= library.history[i]
    {
      RestAt(script, n, 0);
      RestAt(script, n, 1);
      EffectiveStep(undo, script, n);
      assert undo[n] in added;
      var ok := library.Remove(undo[n]);
      if !ok {
        failed := true;
      }
    }
    assert undo[..|undo|] == undo;
  }

  ghost predicate Extends(before: seq<set<string>>, after: seq<set<string>>) {
    |before| <= |after| && forall i | 0 <= i < |before| :: after[i] == before[i]
  }

  lemma DoneSplit(script: seq<Outcome>, n: nat, m: nat)
    ensures AllDone(script, n + m) <==> AllDone(script, n) && AllDone(Rest(script, n), m)
  {
    forall i: nat | i < m
      ensures OutcomeAt(Rest(script, n), i) == OutcomeAt(script, n + i)
    {
      RestAt(script, n, i);
    }
    if AllDone(script, n) && AllDone(Rest(script, n), m) {
      forall i: nat | i < n + m
        ensures OutcomeAt(script, i).Done?
      {
        if i >= n {
          RestAt(script, n, i - n);
        }
      }
    }
  }

  /** Undoes what was recorded as done. */
  method Rollback(library: Library, added: seq<string>, removed: seq<string>, ghost original: set<string>,
        ghost declared: set<string>)
    returns (failed: bool)
    requires library.Current()
    modifies library`locations, library`script, library`history
    ensures failed <==> !AllDone(old(library.script), |removed| + |added|)
    ensures library.locations == Compensated(old(library.locations), added, removed, old(library.script))
    ensures !failed && Recoverable(old(library.locations), added, removed, original, declared)
        && Covered(old(library.history), original, declared)
        ==> Covered(library.history, original, declared)
    ensures library.Current()
  {
    ghost var script := library.script;
    failed := Readd(library, removed);
    if !failed {
      AllEffective(removed, script);
    }
    var more := Unadd(library, added);
    failed := failed || more;
    DoneSplit(script, |removed|, |added|);
  }

  // ---------------------------------------------------------------- the update

  datatype Exit = Updated | RolledBack | NotRolledBack

  /** The requests before the first that was not answered, and what was recorded of them. */
  ghost predicate Progress(additions: seq<string>, removals: seq<string>, added: seq<string>, removed: seq<string>) {
    added <= additions && removed <= removals && (removed != [] ==> added == additions)
  }

  /** The locations when a request was not answered: those recorded, and the effect of that request if it was lost. */
  ghost function Interrupted(original: set<string>, additions: seq<string>, removals: seq<string>, added: seq<string>,
        removed: seq<string>, outcome: Outcome): set<string>
    requires Progress(additions, removals, added, removed)
  {
    var recorded := original + Elements(added) - Elements(removed);
    if !outcome.Lost? then recorded
    else if |added| < |additions| then recorded + {additions[|added|]}
    else if |removed| < |removals| then recorded - {removals[|removed|]}
    else recorded
  }

  method AddAll(library: Library, additions: seq<string>, ghost original: set<string>, ghost declared: set<string>)
    returns (ok: bool, added: seq<string>)
    requires original <= library.locations && Covered(library.history, original, declared)
    requires library.Current()
    modifies library`locations, library`script, library`history
    ensures added <= additions && AllDone(old(library.script), |added|)
    ensures ok ==> added == additions && library.script == Rest(old(library.script), |added|)
    ensures ok ==> library.locations == old(library.locations) + Elements(added)
    ensures !ok ==>
        |added| < |additions| && !OutcomeAt(old(library.script), |added|).Done?
        && library.script == Rest(old(library.script), |added| + 1)
    ensures !ok ==>
        library.locations ==
        old(library.locations) + Elements(added) + Extra(additions, |added|, OutcomeAt(old(library.script), |added|))
    ensures Covered(library.history, original, declared)
    ensures library.Current()
  {
    ghost var script := library.script;
    added := [];
    for n := 0 to |additions|
      invariant added == additions[..n] && AllDone(script, n) && library.script == Rest(script, n) && library.Current()
      invariant library.locations == old(library.locations) + Elements(added)
      invariant Covered(library.history, original, declared)
    {
      RestAt(script, n, 0);
      RestAt(script, n, 1);
      ok := library.Add(additions[n]);
      if !ok {
        return;
      }
      ElementsGrow(added, additions[n]);
      added := added + [additions[n]];
    }
    ok := true;
  }

  /** The path of a request that took effect without an answer. */
  ghost function Extra(paths: seq<string>, n: nat, outcome: Outcome): set<string>
    requires n < |paths|
  {
    if outcome.Lost? then {paths[n]} else {}
  }

  method RemoveAll(library: Library, removals: seq<string>, ghost original: set<string>, ghost declared: set<string>)
    returns (ok: bool, removed: seq<string>)
    requires declared <= library.locations && declared !! Elements(removals)
    requires Covered(library.history, original, declared)
    requires library.Current()
    modifies library`locations, library`script, library`history
    ensures removed <= removals && AllDone(old(library.script), |removed|)
    ensures ok ==> removed == removals && library.script == Rest(old(library.script), |removed|)
    ensures ok ==> library.locations == old(library.locations) - Elements(removed)
    ensures !ok ==>
        |removed| < |removals| && !OutcomeAt(old(library.script), |removed|).Done?
        && library.script == Rest(old(library.script), |removed| + 1)
    ensures !ok ==>
        library.locations ==
        old(library.locations) - Elements(removed) - Extra(removals, |removed|,
        OutcomeAt(old(library.script), |removed|))
    ensures Covered(library.history, original, declared)
    ensures library.Current()
  {
    ghost var script := library.script;
    removed := [];
    for n := 0 to |removals|
      invariant removed == removals[..n] && AllDone(script, n) && library.script == Rest(script, n)
      invariant declared <= library.locations && library.Current()
      invariant library.locations == old(library.locations) - Elements(removed)
      invariant Covered(library.history, original, declared)
    {
      RestAt(script, n, 0);
      RestAt(script, n, 1);
      assert removals[n] in removals;
      ok := library.Remove(removals[n]);
      if !ok {
        return;
      }
      ElementsGrow(removed, removals[n]);
      removed := removed + [removals[n]];
    }
    ok := true;
  }

  /** Removes and sets the options once everything was added, up to the first request that is not answered. */
  method RemoveAndSet(library: Library, removals: seq<string>, options: string, ghost original: set<string>,
        ghost declared: set<string>)
    returns (ok: bool, removed: seq<string>)
    requires declared <= library.locations && declared !! Elements(removals)
    requires Covered(library.history, original, declared) && library.Current()
    modifies library`locations, library`options, library`script, library`history
    ensures removed <= removals && AllDone(old(library.script), |removed|)
    ensures ok ==> removed == removals && OutcomeAt(old(library.script), |removed|).Done?
    ensures ok ==> library.locations == old(library.locations) - Elements(removals) && library.options == options
    ensures !ok ==> !OutcomeAt(old(library.script), |removed|).Done?
    ensures !ok ==> library.script == Rest(old(library.script), |removed| + 1)
    ensures
      var outcome := OutcomeAt(old(library.script), |removed|);
      !ok ==> library.locations == RemovalsInterrupted(old(library.locations), removals, removed, outcome)
    ensures Covered(library.history, original, declared) && library.Current()
  {
    ghost var script := library.script;
    ok, removed := RemoveAll(library, removals, original, declared);
    if !ok {
      return;
    }
    RestAt(script, |removed|, 0);
    RestAt(script, |removed|, 1);
    ok := library.SetOptions(options);
  }

  /** The locations when a removal or the options were not answered. */
  ghost function RemovalsInterrupted(locations: set<string>, removals: seq<string>, removed: seq<string>,
        outcome: Outcome): set<string>
    requires removed <= removals
  {
    locations - Elements(removed) - if |removed| < |removals| then Extra(removals, |removed|, outcome) else {}
  }

  lemma InterruptedLater(original: set<string>, additions: seq<string>, removals: seq<string>, removed: seq<string>,
        outcome: Outcome)
    requires removed <= removals
    ensures Interrupted(original, additions, removals, additions, removed, outcome) ==
        RemovalsInterrupted(original + Elements(additions), removals, removed, outcome)
  {
  }

  lemma InterruptedEarly(original: set<string>, additions: seq<string>, removals: seq<string>, added: seq<string>,
        outcome: Outcome)
    requires added <= additions && |added| < |additions|
    ensures Interrupted(original, additions, removals, added, [], outcome) ==
        original + Elements(added) + Extra(additions, |added|, outcome)
  {
    assert Elements([]) == {};
  }

  /** Adds, removes and sets the options, up to the first request that is not answered. */
  method Forward(library: Library, additions: seq<string>, removals: seq<string>, options: string)
    returns (ok: bool, added: seq<string>, removed: seq<string>)
    requires library.history == [library.locations]
    requires Elements(additions) !! library.locations && Elements(removals) <= library.locations
    modifies library`locations, library`options, library`script, library`history
    ensures Progress(additions, removals, added, removed) && AllDone(old(library.script), |added| + |removed|)
    ensures ok ==> added == additions && removed == removals && AllDone(old(library.script), |added| + |removed| + 1)
    ensures ok ==>
        library.locations == old(library.locations) + Elements(additions) - Elements(removals)
        && library.options == options
    ensures !ok ==> !OutcomeAt(old(library.script), |added| + |removed|).Done?
    ensures !ok ==> library.script == Rest(old(library.script), |added| + |removed| + 1)
    ensures
      var outcome := OutcomeAt(old(library.script), |added| + |removed|);
      !ok ==> library.locations == Interrupted(old(library.locations), additions, removals, added, removed, outcome)
    ensures Covered(library.history, old(library.locations),
        old(library.locations) + Elements(additions) - Elements(removals))
    ensures library.Current()
  {
    ghost var original := library.locations;
    ghost var declared := original + Elements(additions) - Elements(removals);
    ghost var script := library.script;
    removed := [];
    ok, added := AddAll(library, additions, original, declared);
    if !ok {
      InterruptedEarly(original, additions, removals, added, OutcomeAt(script, |added|));
      return;
    }
    ok, removed := RemoveAndSet(library, removals, options, original, declared);
    DoneSplit(script, |added|, |removed|);
    RestAt(script, |added|, |removed|);
    RestAt(script, |added|, |removed| + 1);
    InterruptedLater(original, additions, removals, removed, OutcomeAt(script, |added| + |removed|));
  }

  /** An addition took effect without being recorded. */
  ghost predicate Gains(additions: seq<string>, added: seq<string>, outcome: Outcome) {
    outcome.Lost? && |added| < |additions| && additions[|added|] !in added
  }

  /** A removal took effect without being recorded. */
  ghost predicate Loses(additions: seq<string>, removals: seq<string>, added: seq<string>, removed: seq<string>,
        outcome: Outcome) {
    outcome.Lost? && |added| == |additions| && |removed| < |removals| && removals[|removed|] !in removed
  }

  /** When all compensations succeed, the original locations are back except for what an unanswered request did. */
  lemma RolledBackTo(original: set<string>, additions: seq<string>, removals: seq<string>, added: seq<string>,
        removed: seq<string>, outcome: Outcome, script: seq<Outcome>)
    requires Progress(additions, removals, added, removed) && AllDone(script, |removed| + |added|)
    requires Elements(additions) !! original && Elements(removals) <= original
    ensures
      var undone := Compensated(Interrupted(original, additions, removals, added, removed, outcome), added, removed,
          script);
      undone == if Gains(additions, added, outcome) then original + {additions[|added|]}
          else if Loses(additions, removals, added, removed, outcome) then original - {removals[|removed|]}
          else original
  {
    DoneSplit(script, |removed|, |added|);
    AllEffective(removed, script);
    AllEffective(Reversed(added), Rest(script, |removed|));
    ReversedElements(added);
    assert forall path | path in added :: path in additions;
    assert forall path | path in removed :: path in removals;
    if |added| < |additions| {
      assert additions[|added|] in additions;
      assert Elements(removed) == {};
    }
    if |removed| < |removals| {
      assert removals[|removed|] in removals;
    }
  }

  lemma ReversedElements(paths: seq<string>)
    ensures Elements(Reversed(paths)) == Elements(paths)
  {
    forall path | path in paths
      ensures path in Reversed(paths)
    {
      var i :| 0 <= i < |paths| && paths[i] == path;
      assert Reversed(paths)[|paths| - 1 - i] == path;
    }
  }

  /** Nothing is missing on the way unless a removal was lost after something had been added. */
  lemma InterruptedRecoverable(original: set<string>, additions: seq<string>, removals: seq<string>,
        added: seq<string>, removed: seq<string>, outcome: Outcome)
    requires Progress(additions, removals, added, removed)
    requires Elements(additions) !! original && Elements(removals) <= original
    requires !Loses(additions, removals, added, removed, outcome) || additions == []
    ensures Recoverable(Interrupted(original, additions, removals, added, removed, outcome), added, removed, original,
        original + Elements(additions) - Elements(removals))
  {
    assert forall path | path in added :: path in additions;
    assert forall path | path in removed :: path in removals;
    if |removed| < |removals| {
      assert removals[|removed|] in removals;
    }
  }

  /**
   * The whole update. It ends with the declared locations, or with the original ones when the failing request had no
   * effect and all compensations succeeded; the error that says otherwise is raised just when a compensation failed.
   */
  method UpdatePaths(library: Library, additions: seq<string>, removals: seq<string>, options: string)
    returns (exit: Exit, ghost added: seq<string>, ghost removed: seq<string>)
    requires library.history == [library.locations]
    requires Elements(additions) !! library.locations && Elements(removals) <= library.locations
    modifies library`locations, library`options, library`script, library`history
    ensures Progress(additions, removals, added, removed) && AllDone(old(library.script), |added| + |removed|)
    ensures exit.Updated? <==> AllDone(old(library.script), |additions| + |removals| + 1)
    ensures exit.Updated? ==>
        library.locations == old(library.locations) + Elements(additions) - Elements(removals)
        && library.options == options
    ensures !exit.Updated? ==> !OutcomeAt(old(library.script), |added| + |removed|).Done?
    ensures !exit.Updated? ==>
        (exit.NotRolledBack? <==> !AllDone(Rest(old(library.script), |added| + |removed| + 1), |removed| + |added|))
    ensures
      var outcome := OutcomeAt(old(library.script), |added| + |removed|);
      exit.RolledBack? ==>
        (library.locations == old(library.locations) <==>
         !Gains(additions, added, outcome) && !Loses(additions, removals, added, removed, outcome))
    ensures
      var outcome := OutcomeAt(old(library.script), |added| + |removed|);
      var declared := old(library.locations) + Elements(additions) - Elements(removals);
      !exit.NotRolledBack? ==>
        (Covered(library.history, old(library.locations), declared) <==>
         !(exit.RolledBack? && Loses(additions, removals, added, removed, outcome) && additions != []))
  {
    ghost var original, script := library.locations, library.script;
    ghost var declared := original + Elements(additions) - Elements(removals);
    var ok, done, undone := Forward(library, additions, removals, options);
    added, removed := done, undone;
    if ok {
      return Updated, added, removed;
    }
    ghost var outcome := OutcomeAt(script, |added| + |removed|);
    if !Loses(additions, removals, added, removed, outcome) || additions == [] {
      InterruptedRecoverable(original, additions, removals, added, removed, outcome);
    }
    ghost var rest := library.script;
    var failed := Rollback(library, done, undone, original, declared);
    exit := if failed then NotRolledBack else RolledBack;
    if !failed {
      RolledBackTo(original, additions, removals, added, removed, outcome, rest);
      if Loses(additions, removals, added, removed, outcome) && additions != [] {
        NeitherLeft(original, additions, removals, removed, library.locations);
        assert !(original <= library.history[|library.history| - 1]
            || declared <= library.history[|library.history| - 1]);
      }
    }
  }

  /** After a lost removal and a complete rollback, both an original and a declared path are gone. */
  lemma NeitherLeft(original: set<string>, additions: seq<string>, removals: seq<string>, removed: seq<string>,
        locations: set<string>)
    requires Elements(additions) !! original && Elements(removals) <= original && additions != []
    requires |removed| < |removals| && locations == original - {removals[|removed|]}
    ensures !(original <= locations) && !(original + Elements(additions) - Elements(removals) <= locations)
  {
    assert removals[|removed|] in removals && removals[|removed|] in original;
    var gained := additions[0];
    assert gained in Elements(additions);
    assert gained !in original && gained !in Elements(removals);
    assert gained in original + Elements(additions) - Elements(removals) && gained !in locations;
  }

  /** A compensation that is refused can leave nothing at all: the removal of the added path still goes through. */
  lemma RefusedCompensation(before: string, after: string)
    requires before != after
    ensures
      var script := [Failed, Done];
      Compensated(Interrupted({before}, [after], [before], [after], [before], Failed), [after], [before], script) == {}
  {
    var script := [Failed, Done];
    assert Effective([before], script) == {};
    assert Reversed([after]) == [after];
    assert OutcomeAt(Rest(script, 1), 0).Done? && [after][0] in Effective([after], Rest(script, 1));
    assert Elements([before]) == {before} && Elements([after]) == {after};
  }

  // ---------------------------------------------------------------- from the declaration

  /** The declared paths that are missing, and the existing ones that are not declared, in their order. */
  method Difference(declared: seq<string>, locations: seq<string>) returns (additions: seq<string>,
        removals: seq<string>)
    ensures Elements(additions) == Elements(declared) - Elements(locations)
    ensures Elements(removals) == Elements(locations) - Elements(declared)
  {
    additions, removals := Without(declared, locations), Without(locations, declared);
  }

  function Without(paths: seq<string>, others: seq<string>): (left: seq<string>)
    ensures Elements(left) == Elements(paths) - Elements(others)
  {
    if paths == [] then []
    else
      var last := paths[|paths| - 1];
      var before := Without(paths[..|paths| - 1], others);
      assert paths == paths[..|paths| - 1] + [last];
      ElementsGrow(paths[..|paths| - 1], last);
      ElementsGrow(before, last);
      if last in others then before else before + [last]
  }

  /**
   * Whatever the locations were, an update whose requests are all answered leaves exactly the declared paths. One that
   * was rolled back leaves the original ones unless a lost answer hid an effect, and the error that says otherwise is
   * raised just when a compensation failed.
   */
  method ReconcilePaths(library: Library, declared: seq<string>, options: string)
    returns (exit: Exit, changed: bool, ghost additions: seq<string>, ghost removals: seq<string>,
        ghost added: seq<string>, ghost removed: seq<string>)
    requires library.history == [library.locations]
    modifies library`locations, library`options, library`script, library`history
    ensures changed <==> old(library.locations) != Elements(declared) || old(library.options) != options
    ensures !changed ==> library.script == old(library.script) && library.history == old(library.history)
    ensures exit.Updated? ==> library.locations == Elements(declared) && library.options == options
    ensures (forall i: nat :: OutcomeAt(old(library.script), i).Done?) ==> exit.Updated?
    ensures Elements(additions) == Elements(declared) - old(library.locations)
    ensures Elements(removals) == old(library.locations) - Elements(declared)
    ensures changed ==> (exit.Updated? <==> AllDone(old(library.script), |additions| + |removals| + 1))
    ensures changed ==> Progress(additions, removals, added, removed)
    ensures changed && !exit.Updated? ==>
      var done := |added| + |removed|;
      && !OutcomeAt(old(library.script), done).Done?
      && (exit.NotRolledBack? <==> !AllDone(Rest(old(library.script), done + 1), done))
    ensures exit.RolledBack? ==>
      var outcome := OutcomeAt(old(library.script), |added| + |removed|);
      library.locations == old(library.locations) <==>
        !Gains(additions, added, outcome) && !Loses(additions, removals, added, removed, outcome)
    ensures changed && !exit.NotRolledBack? ==>
      var outcome := OutcomeAt(old(library.script), |added| + |removed|);
      Covered(library.history, old(library.locations), Elements(declared)) <==>
        !(exit.RolledBack? && Loses(additions, removals, added, removed, outcome) && additions != [])
  {
    var locations := library.Locations();
    var more, less := Difference(declared, locations);
    additions, removals, added, removed := more, less, [], [];
    changed := more != [] || less != [] || library.options != options;
    if more == [] {
      assert Elements(more) == {};
    } else {
      assert more[0] in Elements(more);
    }
    if less == [] {
      assert Elements(less) == {};
    } else {
      assert less[0] in Elements(less);
    }
    exit := Updated;
    if changed {
      assert Elements(locations) + Elements(more) - Elements(less) == Elements(declared);
      exit, added, removed := UpdatePaths(library, more, less, options);
    }
  }
}
