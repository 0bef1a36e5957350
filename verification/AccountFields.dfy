/**
 * The fields that the Jellyfin, Audiobookshelf and Navidrome adapters want of an account: the declaration merged or
 * patched into what is there, and literal values for what protects an account and is not declared.
 */
module AccountFields {
  import opened JsonValues
  import opened SharedMerge

  /** A user to reconcile; the empty password stands for none. */
  datatype Spec = Spec(name: string, values: Object, password: string)

  datatype Adapter = Jellyfin | Audiobookshelf | Navidrome

  function WithDefault(o: Object, key: string, value: Json): Object {
    if key in o then o else o[key := value]
  }

  function AudiobookshelfDeclared(s: Spec): Object {
    WithDefault(WithDefault(s.values["username" := Str(s.name)], "type", Str("user")), "isActive", Bool(true))
  }

  function NavidromeDesired(current: Object, s: Spec): Result<Object> {
    Merge(current, WithDefault(s.values, "isAdmin", Bool(false)))
  }

  /** An account is no administrator unless that is declared. */
  function Policy(merged: Object, s: Spec): Object {
    if "IsAdministrator" in s.values then merged else merged["IsAdministrator" := Bool(false)]
  }

  function JellyfinDesired(current: Object, s: Spec): Result<Object> {
    var merged :- Merge(current, s.values);
    Ok(Policy(merged, s))
  }

  /** The fields that the adapter wants of an account; fails where the merge of the declaration does. */
  function Desired(adapter: Adapter, current: Object, s: Spec): Result<Object> {
    match adapter
    case Jellyfin => JellyfinDesired(current, s)
    case Audiobookshelf => Ok(current + AudiobookshelfDeclared(s))
    case Navidrome => NavidromeDesired(current, s)
  }

  /** The account is as the adapter wants it; Audiobookshelf asks only for what is declared. */
  predicate AsWanted(adapter: Adapter, current: Object, s: Spec) {
    if adapter.Audiobookshelf? then Contains(Obj(current), Obj(AudiobookshelfDeclared(s)))
    else Desired(adapter, current, s) == Ok(current)
  }

  /** What the request for a new account carries. */
  function NewFields(adapter: Adapter, s: Spec): (fields: Result<Object>)
    ensures !adapter.Jellyfin? ==> fields == Desired(adapter, map[], s)
  {
    match adapter
    case Jellyfin => Ok(map[])
    case Audiobookshelf =>
      assert map[] + AudiobookshelfDeclared(s) == AudiobookshelfDeclared(s);
      Ok(AudiobookshelfDeclared(s))
    case Navidrome => NavidromeDesired(map[], s)
  }

  // ---------------------------------------------------------------- what the fields come to

  /** The keys for which an adapter has a value of its own, where nothing is declared. */
  predicate OwnValue(adapter: Adapter, s: Spec, key: string, value: Json) {
    match adapter
    case Jellyfin => key == "IsAdministrator" && value == Bool(false)
    case Navidrome => key == "isAdmin" && value == Bool(false)
    case Audiobookshelf =>
      || (key == "type" && value == Str("user"))
      || (key == "isActive" && value == Bool(true))
      || (key == "username" && value == Str(s.name))
  }

  predicate OwnKey(adapter: Adapter, key: string) {
    key in {"IsAdministrator", "isAdmin", "type", "isActive", "username"} && match adapter
      case Jellyfin => key == "IsAdministrator"
      case Navidrome => key == "isAdmin"
      case Audiobookshelf => key in {"type", "isActive", "username"}
  }

  /** Nothing is declared for the path; Audiobookshelf replaces what is declared as a whole. */
  predicate Free(adapter: Adapter, s: Spec, path: seq<string>) {
    && path != [] && !OwnKey(adapter, path[0])
    && if adapter.Audiobookshelf? then path[0] !in s.values else Undeclared(s.values, path)
  }

  /**
   * The fields of an account that was dealt with: the adapter's own values where nothing is declared for them, what
   * is declared if it can be compared at all, and everything else as it was; there is nothing left to do.
   */
  ghost predicate FieldsDone(adapter: Adapter, before: Object, s: Spec, after: Object) {
    && (forall key, value | OwnValue(adapter, s, key, value) && (key !in s.values || key == "username") ::
      key in after && after[key] == value)
    && (forall path | Free(adapter, s, path) :: At(Obj(after), path) == At(Obj(before), path))
    && (FieldsFree(s.values) && "username" !in s.values ==> Contains(Obj(after), Obj(s.values)))
    && (FieldsFree(s.values) ==> AsWanted(adapter, after, s))
  }

  lemma UndeclaredMore(values: Object, path: seq<string>, key: string, value: Json)
    requires Undeclared(values, path) && path[0] != key
    ensures Undeclared(values[key := value], path)
  {
  }

  lemma ContainsPart(o: Object, small: Object, large: Object)
    requires Contains(Obj(o), Obj(large)) && forall key | key in small :: key in large && large[key] == small[key]
    ensures Contains(Obj(o), Obj(small))
  {
  }

  lemma PlainTwice(current: Object, values: Object)
    requires FieldsFree(values)
    ensures Merge(current, values).Ok? && Merge(Merge(current, values).value, values) == Merge(current, values)
  {
    MergeSatisfies(current, values);
    MergeSatisfies(Merge(current, values).value, values);
    MergeTwice(current, values);
  }

  /** A policy that was set is not set again. */
  lemma PolicyTwice(current: Object, s: Spec)
    requires FieldsFree(s.values) && Merge(current, s.values).Ok?
    ensures var policy := Policy(Merge(current, s.values).value, s); JellyfinDesired(policy, s) == Ok(policy)
  {
    PlainTwice(current, s.values);
    var merged := Merge(current, s.values).value;
    var policy := Policy(merged, s);
    if "IsAdministrator" !in s.values {
      forall key | key in s.values
        ensures MergeAt(policy, key, s.values[key]) == Ok(policy[key])
      {
        assert MergeAt(policy, key, s.values[key]) == MergeAt(merged, key, s.values[key]);
        assert Merge(merged, s.values).value[key] == merged[key];
      }
      MergeIs(policy, s.values, policy);
      assert policy["IsAdministrator" := Bool(false)] == policy;
    }
  }

  lemma JellyfinDone(current: Object, s: Spec)
    requires JellyfinDesired(current, s).Ok?
    ensures FieldsDone(Jellyfin, current, s, JellyfinDesired(current, s).value)
  {
    var merged := Merge(current, s.values).value;
    var policy := Policy(merged, s);
    forall path | Free(Jellyfin, s, path)
      ensures At(Obj(policy), path) == At(Obj(current), path)
    {
      MergeKeepsUndeclared(current, s.values, path);
    }
    if FieldsFree(s.values) {
      MergeSatisfies(current, s.values);
      forall key | key in s.values
        ensures key in policy && Contains(policy[key], s.values[key])
      {
        assert key in merged && Contains(merged[key], s.values[key]);
      }
      PolicyTwice(current, s);
    }
  }

  lemma NavidromeDone(current: Object, s: Spec)
    requires NavidromeDesired(current, s).Ok?
    ensures FieldsDone(Navidrome, current, s, NavidromeDesired(current, s).value)
  {
    var declared := WithDefault(s.values, "isAdmin", Bool(false));
    var desired := NavidromeDesired(current, s).value;
    assert MergeAt(current, "isAdmin", declared["isAdmin"]).Ok?;
    forall path | Free(Navidrome, s, path)
      ensures At(Obj(desired), path) == At(Obj(current), path)
    {
      UndeclaredMore(s.values, path, "isAdmin", Bool(false));
      MergeKeepsUndeclared(current, declared, path);
    }
    if FieldsFree(s.values) {
      MergeSatisfies(current, declared);
      ContainsPart(desired, s.values, declared);
      PlainTwice(current, declared);
    }
  }

  /** Overwriting keys makes an object contain them. */
  lemma PatchContains(current: Object, declared: Object)
    ensures Contains(Obj(current + declared), Obj(declared))
  {
    forall key | key in declared
      ensures Contains((current + declared)[key], declared[key])
    {
      ContainsReflexive(declared[key]);
    }
  }

  /** An account that contains the declaration, as it is or patched, is done. */
  lemma AudiobookshelfDone(current: Object, s: Spec, after: Object)
    requires after == current + AudiobookshelfDeclared(s)
        || (after == current && Contains(Obj(current), Obj(AudiobookshelfDeclared(s))))
    ensures Contains(Obj(after), Obj(AudiobookshelfDeclared(s))) && FieldsDone(Audiobookshelf, current, s, after)
  {
    var declared := AudiobookshelfDeclared(s);
    PatchContains(current, declared);
    forall key, value | OwnValue(Audiobookshelf, s, key, value) && (key !in s.values || key == "username")
      ensures key in after && after[key] == value
    {
      assert key in declared && declared[key] == value;
      assert key in after && Contains(after[key], declared[key]);
    }
    forall path | Free(Audiobookshelf, s, path)
      ensures At(Obj(after), path) == At(Obj(current), path)
    {
      assert path[0] !in declared;
    }
    if "username" !in s.values {
      ContainsPart(after, s.values, declared);
    }
  }

  /** Whatever the adapter wants of an account is what dealing with it comes to. */
  lemma DesiredIsDone(adapter: Adapter, current: Object, s: Spec)
    requires Desired(adapter, current, s).Ok?
    ensures FieldsDone(adapter, current, s, Desired(adapter, current, s).value)
  {
    match adapter
    case Jellyfin => JellyfinDone(current, s);
    case Audiobookshelf => AudiobookshelfDone(current, s, current + AudiobookshelfDeclared(s));
    case Navidrome => NavidromeDone(current, s);
  }
  lemma DefaultFails(current: Object, values: Object, path: seq<string>)
    ensures FailsAt(current, WithDefault(values, "isAdmin", Bool(false)), path) <==> FailsAt(current, values, path)
  {
    var declared := WithDefault(values, "isAdmin", Bool(false));
    if path != [] && path[0] == "isAdmin" {
      assert path + ["fields"] == [path[0]] + (path[1..] + ["fields"]);
      AtBelow(declared, "isAdmin", path[1..] + ["fields"]);
      AtBelow(values, "isAdmin", path[1..] + ["fields"]);
    } else {
      assert (path + ["fields"])[0] != "isAdmin";
    }
  }

  /** What is declared can be merged just when its schema fields fit; Audiobookshelf never merges. */
  lemma DesiredSucceeds(adapter: Adapter, current: Object, s: Spec)
    ensures Desired(adapter, current, s).Ok? <==>
        adapter.Audiobookshelf? || !exists path :: FailsAt(current, s.values, path)
  {
    MergeFails(current, s.values);
    var declared := WithDefault(s.values, "isAdmin", Bool(false));
    MergeFails(current, declared);
    forall path {
      DefaultFails(current, s.values, path);
    }
  }
}
