/**
 * The comparison rules shared by the integration adapters: the recursive merge of a declaration into
 * a server object, with its special case for provider `fields`, and the containment test.
 */
module SharedMerge {
  import opened JsonValues

  // ---------------------------------------------------------------- the merge

  predicate IsFieldsCase(key: string, value: Json) {
    key == "fields" && value.Obj?
  }

  /** The name of a schema field; null when the item is no object or has no name. */
  function NameOf(item: Json): Json {
    if item.Obj? then Get(item.fields, "name") else Null
  }

  /** A schema field: an object with a name that can be a dictionary key. */
  predicate NamedField(item: Json) {
    item.Obj? && "name" in item.fields && !NameOf(item).Arr? && !NameOf(item).Obj?
  }

  /** The elements that iterating over the current `fields` value yields, each indexed by its name. */
  function FieldList(current: Json): Result<seq<Json>> {
    match current
    case Arr(items) => if forall i | 0 <= i < |items| :: NamedField(items[i]) then Ok(items) else Err
    case Str(s) => if s == "" then Ok([]) else Err
    case Obj(fields) => if fields == map[] then Ok([]) else Err
    case _ => Err
  }

  /** A dictionary by name keeps the last of several fields of one name. */
  predicate LastOfName(items: seq<Json>, i: nat)
    requires i < |items|
  {
    forall j | i < j < |items| :: NameOf(items[j]) != NameOf(items[i])
  }

  predicate HasField(items: seq<Json>, name: string) {
    exists j | 0 <= j < |items| :: NameOf(items[j]) == Str(name)
  }

  /** One schema field after the assignments. */
  function SetField(items: seq<Json>, i: nat, values: Object): Json
    requires i < |items|
  {
    if items[i].Obj? && NameOf(items[i]).Str? && NameOf(items[i]).s in values && LastOfName(items, i)
    then Obj(items[i].fields["value" := values[NameOf(items[i]).s]])
    else items[i]
  }

  /** Assigns declared values to the schema fields they name; an unknown name is an error. */
  function MergeFields(current: Json, values: Object): Result<Json> {
    var items :- FieldList(current);
    if forall name | name in values :: HasField(items, name)
    then if current.Arr? then Ok(Arr(SetFields(items, values))) else Ok(current)
    else Err
  }

  /** What the merge stores at one declared key. */
  function MergeAt(current: Object, key: string, value: Json): Result<Json>
    decreases value, 1
  {
    if IsFieldsCase(key, value) then
      MergeFields(if key in current then current[key] else Arr([]), value.fields)
    else if value.Obj? && key in current && current[key].Obj? then
      var merged :- Merge(current[key].fields, value.fields);
      Ok(Obj(merged))
    else
      Ok(value)
  }

  /** The keys of the merge; a `fields` object never creates its key. */
  function MergedKeys(current: Object, values: Object): set<string> {
    current.Keys + set key | key in values && !IsFieldsCase(key, values[key])
  }

  function Merge(current: Object, values: Object): Result<Object>
    decreases Obj(values), 0
  {
    if forall key | key in values :: MergeAt(current, key, values[key]).Ok? then
      Ok(map key | key in MergedKeys(current, values) ::
        if key in values then MergeAt(current, key, values[key]).value else current[key])
    else
      Err
  }

  /** The merge is determined by what it holds at every key. */
  lemma MergeIs(current: Object, values: Object, merged: Object)
    requires forall key | key in values :: MergeAt(current, key, values[key]).Ok?
    requires merged.Keys == MergedKeys(current, values)
    requires forall key | key in merged ::
        merged[key] == if key in values then MergeAt(current, key, values[key]).value else current[key]
    ensures Merge(current, values) == Ok(merged)
  {
    var result := Merge(current, values).value;
    assert result.Keys == merged.Keys;
    assert forall key | key in result :: result[key] == merged[key];
    assert result == merged;
  }

  /** The merge as it is run: one declared key after another, assigned into a private copy. */
  method MergeByKey(current: Object, values: Object) returns (result: Result<Object>)
    ensures result == Merge(current, values)
    decreases Obj(values)
  {
    var merged := current;
    var rest := values.Keys;
    while rest != {}
      invariant rest <= values.Keys
      invariant forall key | key in values.Keys - rest :: MergeAt(current, key, values[key]).Ok?
      invariant forall key | key in rest || key !in values :: key in merged <==> key in current
      invariant forall key | key in rest || key !in values :: key in merged ==> merged[key] == current[key]
      invariant forall key | key in values.Keys - rest ::
          (key in merged <==> key in MergedKeys(current, values)) &&
          (key in merged ==> merged[key] == MergeAt(current, key, values[key]).value)
    {
      var key :| key in rest;
      var value := values[key];
      if IsFieldsCase(key, value) {
        var fields := MergeFields(if key in merged then merged[key] else Arr([]), value.fields);
        if fields.Err? {
          return Err;
        }
        if key in merged {
          merged := merged[key := fields.value];
        }
      } else if value.Obj? && key in merged && merged[key].Obj? {
        var inner := MergeByKey(merged[key].fields, value.fields);
        if inner.Err? {
          return Err;
        }
        merged := merged[key := Obj(inner.value)];
      } else {
        merged := merged[key := value];
      }
      rest := rest - {key};
    }
    MergeIs(current, values, merged);
    result := Ok(merged);
  }

  // ---------------------------------------------------------------- merging twice

  /** A declared object that is copied whole can be merged into its own copy: it holds no nonempty `fields` object. */
  predicate SelfStable(values: Object)
    decreases Obj(values)
  {
    forall key | key in values && values[key].Obj? ::
      && (key == "fields" ==> values[key].fields == map[])
      && SelfStable(values[key].fields)
  }

  /** Every `fields` object is declared where the current object already has the list to assign into. */
  predicate Stable(current: Object, values: Object)
    decreases Obj(values)
  {
    forall key | key in values && values[key].Obj? && key != "fields" ::
      if key in current && current[key].Obj?
      then Stable(current[key].fields, values[key].fields)
      else SelfStable(values[key].fields)
  }

  function SetFields(items: seq<Json>, values: Object): (result: seq<Json>)
    ensures |result| == |items|
  {
    seq(|items|, i requires 0 <= i < |items| => SetField(items, i, values))
  }

  /** Assignments keep the names of the fields, so assigning the same values again changes nothing. */
  lemma SetFieldsTwice(items: seq<Json>, values: Object)
    ensures forall i | 0 <= i < |items| :: NameOf(SetFields(items, values)[i]) == NameOf(items[i])
    ensures SetFields(SetFields(items, values), values) == SetFields(items, values)
  {
    var once := SetFields(items, values);
    assert forall i | 0 <= i < |items| :: NameOf(once[i]) == NameOf(items[i]);
    forall i | 0 <= i < |items|
      ensures SetField(once, i, values) == once[i]
    {
      assert LastOfName(once, i) <==> LastOfName(items, i);
    }
  }

  lemma MergeFieldsTwice(current: Json, values: Object)
    requires MergeFields(current, values).Ok?
    ensures MergeFields(MergeFields(current, values).value, values) == MergeFields(current, values)
  {
    if current.Arr? {
      var items := current.items;
      var once := SetFields(items, values);
      SetFieldsTwice(items, values);
      assert forall i | 0 <= i < |once| :: NamedField(items[i]) && NamedField(once[i]);
      forall name | name in values
        ensures HasField(once, name)
      {
        var j :| 0 <= j < |items| && NameOf(items[j]) == Str(name);
        assert NameOf(once[j]) == Str(name);
      }
    }
  }

  /** A copied object merges into itself without change if it is self-stable, and fails otherwise. */
  lemma {:induction false} SelfMerge(values: Object)
    ensures SelfStable(values) ==> Merge(values, values) == Ok(values)
    ensures !SelfStable(values) ==> Merge(values, values).Err?
    decreases Obj(values)
  {
    forall key | key in values && values[key].Obj?
      ensures SelfStable(values[key].fields) ==> Merge(values[key].fields, values[key].fields) == Ok(values[key].fields)
      ensures !SelfStable(values[key].fields) ==> Merge(values[key].fields, values[key].fields).Err?
    {
      SelfMerge(values[key].fields);
    }
    if SelfStable(values) {
      MergeIs(values, values, values);
    } else {
      var key :| key in values && values[key].Obj? &&
          !((key == "fields" ==> values[key].fields == map[]) && SelfStable(values[key].fields));
      assert MergeAt(values, key, values[key]).Err?;
    }
  }

  /** Repeating a merge leaves its result alone exactly when the merge was stable; an unstable one then fails. */
  lemma {:induction false} MergeTwice(current: Object, values: Object)
    requires Merge(current, values).Ok?
    ensures Stable(current, values) ==> Merge(Merge(current, values).value, values) == Merge(current, values)
    ensures !Stable(current, values) ==> Merge(Merge(current, values).value, values).Err?
    decreases Obj(values)
  {
    var merged := Merge(current, values).value;
    forall key | key in values
      ensures StableAt(current, key, values[key]) ==>
          (key in merged ==> MergeAt(merged, key, values[key]) == Ok(merged[key])) &&
          MergeAt(merged, key, values[key]).Ok?
      ensures !StableAt(current, key, values[key]) ==> MergeAt(merged, key, values[key]).Err?
    {
      MergeAtTwice(current, key, values);
    }
    if Stable(current, values) {
      assert forall key | key in values :: StableAt(current, key, values[key]);
      MergeIs(merged, values, merged);
    } else {
      var key :| key in values && values[key].Obj? && key != "fields" && !StableAt(current, key, values[key]);
      assert MergeAt(merged, key, values[key]).Err?;
    }
  }

  predicate StableAt(current: Object, key: string, value: Json) {
    value.Obj? && key != "fields" ==>
      if key in current && current[key].Obj? then Stable(current[key].fields, value.fields)
          else SelfStable(value.fields)
  }

  lemma {:induction false} MergeAtTwice(current: Object, key: string, values: Object)
    requires Merge(current, values).Ok? && key in values
    ensures
      var merged := Merge(current, values).value;
      && (StableAt(current, key, values[key]) ==>
          (key in merged ==> MergeAt(merged, key, values[key]) == Ok(merged[key]))
              && MergeAt(merged, key, values[key]).Ok?)
      && (!StableAt(current, key, values[key]) ==> MergeAt(merged, key, values[key]).Err?)
    decreases Obj(values), 0
  {
    var value := values[key];
    if IsFieldsCase(key, value) {
      MergeFieldsTwice(if key in current then current[key] else Arr([]), value.fields);
    } else if value.Obj? && key in current && current[key].Obj? {
      MergeTwice(current[key].fields, value.fields);
    } else if value.Obj? {
      SelfMerge(value.fields);
    }
  }

  // ---------------------------------------------------------------- what a merge keeps and what it sets

  /** No declared value lies at the path, above it or below it. */
  predicate Undeclared(values: Object, path: seq<string>)
    decreases |path|
  {
    && path != []
    && (path[0] in values ==>
        values[path[0]].Obj? && path[0] != "fields" && Undeclared(values[path[0]].fields, path[1..]))
  }

  lemma {:induction false} NothingUndeclared(values: Object, path: seq<string>)
    requires Undeclared(values, path)
    ensures At(Obj(values), path).Err?
    decreases |path|
  {
    if path[0] in values {
      NothingUndeclared(values[path[0]].fields, path[1..]);
    }
  }

  /** At every depth, whatever the declaration does not mention stays exactly as the server had it. */
  lemma {:induction false} MergeKeepsUndeclared(current: Object, values: Object, path: seq<string>)
    requires Merge(current, values).Ok? && Undeclared(values, path)
    ensures At(Obj(Merge(current, values).value), path) == At(Obj(current), path)
    decreases |path|
  {
    var key := path[0];
    if key in values {
      assert MergeAt(current, key, values[key]).Ok?;
      if key in current && current[key].Obj? {
        MergeKeepsUndeclared(current[key].fields, values[key].fields, path[1..]);
      } else {
        NothingUndeclared(values[key].fields, path[1..]);
      }
    }
  }

  /** The field keeps its name and its other properties, and stays whole unless it is declared. */
  ghost predicate FieldKept(item: Json, merged: Json, values: Object) {
    && NamedField(item) && NamedField(merged) && NameOf(merged) == NameOf(item)
    && (forall key | key != "value" :: Get(merged.fields, key) == Get(item.fields, key))
    && (!(NameOf(item).Str? && NameOf(item).s in values) ==> merged == item)
  }

  /** The list keeps its fields in order, and every declared name has a field with the declared value. */
  ghost predicate FieldsFramed(items: seq<Json>, merged: seq<Json>, values: Object) {
    && |merged| == |items|
    && (forall i | 0 <= i < |items| :: FieldKept(items[i], merged[i], values))
    && (forall name | name in values :: exists i | 0 <= i < |items| ::
        NameOf(items[i]) == Str(name) && Get(merged[i].fields, "value") == values[name])
  }

  lemma MergeFieldsFrame(items: seq<Json>, values: Object)
    requires MergeFields(Arr(items), values).Ok?
    ensures
      var merged := MergeFields(Arr(items), values).value;
      merged.Arr? && FieldsFramed(items, merged.items, values)
  {
    var merged := SetFields(items, values);
    forall i | 0 <= i < |items|
      ensures FieldKept(items[i], merged[i], values)
    {
      SetFieldKeeps(items, i, values);
    }
    forall name | name in values
      ensures exists i | 0 <= i < |items| ::
          NameOf(items[i]) == Str(name) && Get(merged[i].fields, "value") == values[name]
    {
      var i := FieldAssigned(items, values, name);
    }
  }

  lemma SetFieldKeeps(items: seq<Json>, i: nat, values: Object)
    requires i < |items| && NamedField(items[i])
    ensures FieldKept(items[i], SetField(items, i, values), values)
  {
  }

  lemma FieldAssigned(items: seq<Json>, values: Object, name: string) returns (i: nat)
    requires name in values && HasField(items, name) && forall j | 0 <= j < |items| :: NamedField(items[j])
    ensures i < |items| && NameOf(items[i]) == Str(name) && SetFields(items, values)[i].Obj?
    ensures Get(SetFields(items, values)[i].fields, "value") == values[name]
  {
    var j :| 0 <= j < |items| && NameOf(items[j]) == Str(name);
    i := LastNamed(items, j);
  }

  lemma LastNamed(items: seq<Json>, j: nat) returns (i: nat)
    requires j < |items|
    ensures j <= i < |items| && NameOf(items[i]) == NameOf(items[j]) && LastOfName(items, i)
    decreases |items| - j
  {
    i := j;
    if !LastOfName(items, j) {
      var next :| j < next < |items| && NameOf(items[next]) == NameOf(items[j]);
      i := LastNamed(items, next);
    }
  }

  // ---------------------------------------------------------------- containment

  /** A current value satisfies a declaration: objects may have more keys, lists are compared item by item. */
  predicate Contains(current: Json, declared: Json)
    decreases declared
  {
    match declared
    case Obj(fields) =>
      current.Obj? && forall key | key in fields :: key in current.fields && Contains(current.fields[key], fields[key])
    case Arr(items) =>
      current.Arr? && |current.items| == |items| &&
      forall i | 0 <= i < |items| :: Contains(current.items[i], items[i])
    case _ =>
      current == declared
  }

  // ---------------------------------------------------------------- when the merge fails

  /** A schema field with the name, or with any name that a dictionary can have as a key. */
  predicate FieldNamed(item: Json, name: Result<Json>) {
    item.Obj? && "name" in item.fields && !item.fields["name"].Obj? && !item.fields["name"].Arr?
    && (name.Ok? ==> item.fields["name"] == name.value)
  }

  /**
   * What is found is a list of fields that all have names, with every declared name among them; or it is missing or
   * an empty value, and nothing is declared.
   */
  predicate Fits(found: Result<Json>, values: Object) {
    if found.Ok? && found.value.Arr? then
      && (forall i | 0 <= i < |found.value.items| :: FieldNamed(found.value.items[i], Err))
      && forall name | name in values ::
        exists i | 0 <= i < |found.value.items| :: FieldNamed(found.value.items[i], Ok(Str(name)))
    else values == map[] && (found.Ok? ==> found.value == Str("") || found.value == Obj(map[]))
  }

  lemma FieldsFit(current: Json, values: Object)
    ensures MergeFields(current, values).Ok? <==> Fits(Ok(current), values)
  {
    if current.Arr? {
      forall i | 0 <= i < |current.items|
        ensures NamedField(current.items[i]) <==> FieldNamed(current.items[i], Err)
      {
      }
      forall name, i | 0 <= i < |current.items| && NamedField(current.items[i])
        ensures NameOf(current.items[i]) == Str(name) <==> FieldNamed(current.items[i], Ok(Str(name)))
      {
      }
    } else if MergeFields(current, values).Ok? {
      assert forall name | name in values :: HasField([], name);
    }
  }

  /** Objects lead there in both, and the schema fields that are declared there do not fit. */
  predicate FailsAt(current: Object, values: Object, path: seq<string>) {
    && "fields" !in path
    && At(Obj(current), path).Ok? && At(Obj(current), path).value.Obj?
    && var declared := At(Obj(values), path + ["fields"]);
      declared.Ok? && declared.value.Obj? && !Fits(At(Obj(current), path + ["fields"]), declared.value.fields)
  }

  lemma FailsHere(current: Object, values: Object)
    ensures FailsAt(current, values, []) <==>
        "fields" in values && values["fields"].Obj? && MergeAt(current, "fields", values["fields"]).Err?
  {
    assert [] + ["fields"] == ["fields"] && ["fields"][1..] == [];
    if "fields" in values && values["fields"].Obj? {
      FieldsFit(if "fields" in current then current["fields"] else Arr([]), values["fields"].fields);
    }
  }

  lemma AtBelow(o: Object, key: string, path: seq<string>)
    ensures At(Obj(o), [key] + path) == if key in o then At(o[key], path) else Err
  {
    assert ([key] + path)[1..] == path;
  }

  lemma FailsBelow(current: Object, values: Object, key: string, path: seq<string>)
    requires key != "fields"
    ensures FailsAt(current, values, [key] + path) <==>
      && key in current && current[key].Obj? && key in values && values[key].Obj?
      && FailsAt(current[key].fields, values[key].fields, path)
  {
    AtBelow(current, key, path);
    AtBelow(current, key, path + ["fields"]);
    AtBelow(values, key, path + ["fields"]);
    assert [key] + path + ["fields"] == [key] + (path + ["fields"]);
    assert "fields" in [key] + path <==> "fields" in path;
  }

  lemma {:induction false} FailsSomewhere(current: Object, values: Object) returns (path: seq<string>)
    requires Merge(current, values).Err?
    ensures FailsAt(current, values, path)
    decreases Obj(values)
  {
    var key :| key in values && MergeAt(current, key, values[key]).Err?;
    if key == "fields" {
      path := [];
      FailsHere(current, values);
    } else {
      var rest := FailsSomewhere(current[key].fields, values[key].fields);
      path := [key] + rest;
      FailsBelow(current, values, key, rest);
    }
  }

  lemma {:induction false} FailsThere(current: Object, values: Object, path: seq<string>)
    requires FailsAt(current, values, path)
    ensures Merge(current, values).Err?
    decreases |path|
  {
    if path == [] {
      FailsHere(current, values);
    } else {
      assert path == [path[0]] + path[1..];
      FailsBelow(current, values, path[0], path[1..]);
      FailsThere(current[path[0]].fields, values[path[0]].fields, path[1..]);
      assert MergeAt(current, path[0], values[path[0]]).Err?;
    }
  }

  /** The merge fails just when somewhere the declared schema fields do not fit what is there. */
  lemma MergeFails(current: Object, values: Object)
    ensures Merge(current, values).Err? <==> exists path :: FailsAt(current, values, path)
  {
    if Merge(current, values).Err? {
      var path := FailsSomewhere(current, values);
    }
    if path :| FailsAt(current, values, path) {
      FailsThere(current, values, path);
    }
  }

  lemma {:induction false} ContainsReflexive(value: Json)
    ensures Contains(value, value)
    decreases value
  {
    match value
    case Obj(fields) =>
      forall key | key in fields ensures Contains(fields[key], fields[key]) { ContainsReflexive(fields[key]); }
    case Arr(items) =>
      forall i | 0 <= i < |items| ensures Contains(items[i], items[i]) { ContainsReflexive(items[i]); }
    case _ =>
  }

  lemma {:induction false} ContainsTransitive(a: Json, b: Json, c: Json)
    requires Contains(a, b) && Contains(b, c)
    ensures Contains(a, c)
    decreases c
  {
    match c
    case Obj(fields) =>
      forall key | key in fields
        ensures Contains(a.fields[key], fields[key])
      {
        ContainsTransitive(a.fields[key], b.fields[key], fields[key]);
      }
    case Arr(items) =>
      forall i | 0 <= i < |items|
        ensures Contains(a.items[i], items[i])
      {
        ContainsTransitive(a.items[i], b.items[i], items[i]);
      }
    case _ =>
  }

  lemma {:induction false} ContainsAntisymmetric(a: Json, b: Json)
    requires Contains(a, b) && Contains(b, a)
    ensures a == b
    decreases a
  {
    match a
    case Obj(fields) =>
      forall key | key in fields ensures fields[key] ==
          b.fields[key] { ContainsAntisymmetric(fields[key], b.fields[key]); }
      assert fields.Keys == b.fields.Keys;
      assert fields == b.fields;
    case Arr(items) =>
      forall i | 0 <= i < |items| ensures items[i] == b.items[i] { ContainsAntisymmetric(items[i], b.items[i]); }
      assert items == b.items;
    case _ =>
  }

  /** No key called `fields` holds an object, at any depth outside lists. */
  predicate FieldsFree(values: Object)
    decreases Obj(values)
  {
    forall key | key in values && values[key].Obj? :: key != "fields" && FieldsFree(values[key].fields)
  }

  /** Without `fields` objects a merge never fails and its result satisfies the declaration. */
  lemma {:induction false} MergeSatisfies(current: Object, values: Object)
    requires FieldsFree(values)
    ensures Merge(current, values).Ok?
    ensures Contains(Obj(Merge(current, values).value), Obj(values))
    decreases Obj(values)
  {
    forall key | key in values
      ensures MergeAt(current, key, values[key]).Ok?
      ensures Contains(MergeAt(current, key, values[key]).value, values[key])
    {
      if values[key].Obj? && key in current && current[key].Obj? {
        MergeSatisfies(current[key].fields, values[key].fields);
      } else {
        ContainsReflexive(values[key]);
      }
    }
  }

  /** Lists that the declaration contains are held by the current object without extra keys in their items. */
  predicate ListsEqual(current: Object, values: Object)
    decreases Obj(values)
  {
    forall key | key in values && key in current ::
      && (values[key].Arr? ==> current[key] == values[key])
      && (values[key].Obj? && current[key].Obj? ==> ListsEqual(current[key].fields, values[key].fields))
  }

  /** A merge changes nothing exactly when the declaration is already satisfied and its lists are held unextended. */
  lemma {:induction false} MergeUnchanged(current: Object, values: Object)
    requires FieldsFree(values)
    ensures Merge(current, values) == Ok(current) <==>
        Contains(Obj(current), Obj(values)) && ListsEqual(current, values)
    decreases Obj(values)
  {
    MergeSatisfies(current, values);
    var merged := Merge(current, values).value;
    forall key | key in values && key in current
      ensures MergeAt(current, key, values[key]).Ok?
      ensures
        MergeAt(current, key, values[key]).value == current[key] <==>
        && Contains(current[key], values[key])
        && (values[key].Arr? ==> current[key] == values[key])
        && (values[key].Obj? && current[key].Obj? ==> ListsEqual(current[key].fields, values[key].fields))
    {
      if values[key].Obj? && current[key].Obj? {
        MergeUnchanged(current[key].fields, values[key].fields);
      } else {
        ContainsReflexive(values[key]);
      }
    }
    if Contains(Obj(current), Obj(values)) && ListsEqual(current, values) {
      MergeIs(current, values, current);
    }
    if merged == current {
      assert forall key | key in values :: key in MergedKeys(current, values);
    }
  }

  /** No object lies anywhere inside the value. */
  predicate ObjectFree(value: Json)
    decreases value
  {
    !value.Obj? && (value.Arr? ==> forall i | 0 <= i < |value.items| :: ObjectFree(value.items[i]))
  }

  predicate FlatLists(values: Object)
    decreases Obj(values)
  {
    forall key | key in values ::
      (values[key].Arr? ==> ObjectFree(values[key])) && (values[key].Obj? ==> FlatLists(values[key].fields))
  }

  lemma {:induction false} FlatContains(current: Json, declared: Json)
    requires ObjectFree(declared)
    ensures Contains(current, declared) <==> current == declared
    decreases declared
  {
    ContainsReflexive(declared);
    if declared.Arr? && Contains(current, declared) {
      forall i | 0 <= i < |declared.items| ensures current.items[i] == declared.items[i] {
        FlatContains(current.items[i], declared.items[i]);
      }
      assert current.items == declared.items;
    }
  }

  lemma {:induction false} FlatListsEqual(current: Object, values: Object)
    requires FlatLists(values) && Contains(Obj(current), Obj(values))
    ensures ListsEqual(current, values)
    decreases Obj(values)
  {
    forall key | key in values && key in current
      ensures values[key].Arr? ==> current[key] == values[key]
      ensures values[key].Obj? && current[key].Obj? ==> ListsEqual(current[key].fields, values[key].fields)
    {
      if values[key].Arr? {
        FlatContains(current[key], values[key]);
      } else if values[key].Obj? {
        FlatListsEqual(current[key].fields, values[key].fields);
      }
    }
  }

  /** When no object lies inside a declared list, the two ways of detecting a change agree. */
  lemma ChangeTestsAgree(current: Object, values: Object)
    requires FieldsFree(values) && FlatLists(values)
    ensures Merge(current, values) == Ok(current) <==> Contains(Obj(current), Obj(values))
  {
    MergeUnchanged(current, values);
    if Contains(Obj(current), Obj(values)) {
      FlatListsEqual(current, values);
    }
  }
}
