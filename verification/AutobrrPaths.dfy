/**
 * What the comparison of the autobrr adapter means, path by path: which values a match finds in place, at any depth
 * and with the secrets known by their fingerprints only.
 */
module AutobrrPaths {
  import opened AutobrrMatch
  import opened JsonValues

  /** The values that Python takes for false. */
  const FALSY: set<Json> := {Null, Bool(false), Num(0), Str(""), Arr([]), Obj(map[])}

  lemma TruthyMeans(value: Json)
    ensures Truthy(value) <==> value !in FALSY
  {
  }

  /** The two secret keys, each letter in either case. */
  predicate SecretName(key: string) {
    || (|key| == 8 && forall i | 0 <= i < 8 :: key[i] in {"password"[i], "PASSWORD"[i]})
    || (|key| == 6 && forall i | 0 <= i < 6 :: key[i] in {"apikey"[i], "APIKEY"[i]})
  }

  lemma LowerCharMeans(c: char, lower: char, upper: char)
    requires 'a' <= lower <= 'z' && upper as int + 32 == lower as int
    ensures LowerChar(c) == lower <==> c in {lower, upper}
  {
  }

  lemma LowerMeans(key: string, lower: string, upper: string)
    requires |lower| == |upper|
    requires forall i | 0 <= i < |lower| :: 'a' <= lower[i] <= 'z' && upper[i] as int + 32 == lower[i] as int
    ensures Lower(key) == lower <==> |key| == |lower| && forall i | 0 <= i < |key| :: key[i] in {lower[i], upper[i]}
  {
    if |key| == |lower| {
      forall i | 0 <= i < |key|
        ensures Lower(key)[i] == lower[i] <==> key[i] in {lower[i], upper[i]}
      {
        LowerCharMeans(key[i], lower[i], upper[i]);
      }
    }
  }

  lemma SecretKeyMeans(key: string)
    ensures SecretKey(key) <==> SecretName(key)
  {
    LowerMeans(key, "password", "PASSWORD");
    LowerMeans(key, "apikey", "APIKEY");
  }

  /** A path as the state file writes it. */
  function Dotted(path: seq<string>): string
    requires path != []
  {
    if |path| == 1 then path[0] else path[0] + "." + Dotted(path[1..])
  }

  // ---------------------------------------------------------------- what a match finds

  /** The value is there, or nothing is and an empty value of a type is declared. */
  predicate PlainThere(found: Result<Json>, value: Json) {
    || (found == Ok(value) && value != Null)
    || (found in {Err, Ok(Null)} && value in {Bool(false), Num(0), Str(""), Arr([])})
  }

  /** Some secret is there and the declared one has the known fingerprint, or both are empty. */
  predicate SecretThere(hash: Hash, known: Ledger, found: Result<Json>, value: Json, path: string) {
    || (found == Ok(Str("")) && value in FALSY)
    || (found.Ok? && found.value !in FALSY && path in known && Verifies(hash, known[path], value))
  }

  /** What the declaration asks for at the path stands there; nothing but an object stands where it has an object. */
  predicate StandsAt(hash: Hash, known: Ledger, current: Object, values: Object, prefix: string, path: seq<string>) {
    path != [] && At(Obj(values), path).Ok? ==>
      var value, found := At(Obj(values), path).value, At(Obj(current), path);
      if value.Obj? then value == Obj(map[]) || found.Err? || found.value.Obj? || found.value in FALSY
      else if SecretName(path[|path| - 1]) then SecretThere(hash, known, found, value, prefix + Dotted(path))
      else PlainThere(found, value)
  }

  lemma PathUnder(o: Object, key: string, rest: seq<string>)
    requires rest != []
    ensures At(Obj(o), [key] + rest) == At(Obj(OrEmpty(Get(o, key))), rest)
  {
    assert ([key] + rest)[1..] == rest;
  }

  lemma {:induction false} MatchStands(hash: Hash, known: Ledger, current: Object, values: Object, prefix: string,
        path: seq<string>)
    requires Matches(hash, known, current, values, prefix)
    ensures StandsAt(hash, known, current, values, prefix, path)
    decreases |path|
  {
    if path != [] && At(Obj(values), path).Ok? {
      var key, rest := path[0], path[1..];
      assert MatchesAt(hash, known, Get(current, key), key, values[key], prefix);
      if rest == [] {
        LastStands(hash, known, current, values, prefix, key);
        assert path == [key];
      } else {
        assert path == [key] + rest && At(values[key], rest).Ok?;
        MatchStands(hash, known, OrEmpty(Get(current, key)), values[key].fields, prefix + key + ".", rest);
        StandsUnder(hash, known, current, values, prefix, key, rest);
      }
    }
  }

  lemma StandsUnder(hash: Hash, known: Ledger, current: Object, values: Object, prefix: string, key: string,
        rest: seq<string>)
    requires key in values && values[key].Obj? && rest != []
    ensures
      StandsAt(hash, known, current, values, prefix, [key] + rest) <==>
      StandsAt(hash, known, OrEmpty(Get(current, key)), values[key].fields, prefix + key + ".", rest)
  {
    PathUnder(current, key, rest);
    PathUnder(values, key, rest);
    assert ([key] + rest)[1..] == rest;
    assert prefix + Dotted([key] + rest) == prefix + key + "." + Dotted(rest);
  }

  /** One declared key by itself. */
  lemma LastStands(hash: Hash, known: Ledger, current: Object, values: Object, prefix: string, key: string)
    requires key in values
    ensures !values[key].Obj? ==>
      (MatchesAt(hash, known, Get(current, key), key, values[key], prefix) <==>
       StandsAt(hash, known, current, values, prefix, [key]))
    ensures values[key].Obj? ==>
      (!Blocks(Get(current, key), values[key]) <==> StandsAt(hash, known, current, values, prefix, [key]))
  {
    SecretKeyMeans(key);
    TruthyMeans(Get(current, key));
    TruthyMeans(values[key]);
    assert At(Obj(values), [key]) == Ok(values[key]);
    assert At(Obj(current), [key]) == if key in current then Ok(current[key]) else Err;
    assert Dotted([key]) == key;
  }

  lemma {:induction false} StandsMatch(hash: Hash, known: Ledger, current: Object, values: Object, prefix: string)
    requires forall path :: StandsAt(hash, known, current, values, prefix, path)
    ensures Matches(hash, known, current, values, prefix)
    decreases Obj(values)
  {
    forall key | key in values
      ensures MatchesAt(hash, known, Get(current, key), key, values[key], prefix)
    {
      assert StandsAt(hash, known, current, values, prefix, [key]);
      LastStands(hash, known, current, values, prefix, key);
      if values[key].Obj? {
        forall rest: seq<string>
          ensures StandsAt(hash, known, OrEmpty(Get(current, key)), values[key].fields, prefix + key + ".", rest)
        {
          if rest != [] {
            assert StandsAt(hash, known, current, values, prefix, [key] + rest);
            StandsUnder(hash, known, current, values, prefix, key, rest);
          }
        }
        StandsMatch(hash, known, OrEmpty(Get(current, key)), values[key].fields, prefix + key + ".");
      }
    }
  }

  /** A match means just that at every path what is declared stands there. */
  lemma MatchMeans(hash: Hash, known: Ledger, current: Object, values: Object, prefix: string)
    ensures Matches(hash, known, current, values, prefix) <==>
        forall path :: StandsAt(hash, known, current, values, prefix, path)
  {
    if Matches(hash, known, current, values, prefix) {
      forall path
        ensures StandsAt(hash, known, current, values, prefix, path)
      {
        MatchStands(hash, known, current, values, prefix, path);
      }
    }
    if forall path :: StandsAt(hash, known, current, values, prefix, path) {
      StandsMatch(hash, known, current, values, prefix);
    }
  }

  // ---------------------------------------------------------------- values in place

  /** A declared value that is no secret. */
  predicate PlainLeaf(values: Object, path: seq<string>) {
    path != [] && At(Obj(values), path).Ok? && !At(Obj(values), path).value.Obj? && !SecretName(path[|path| - 1])
  }

  /** At every path the object has the declared value, or nothing where an empty value is declared. */
  ghost predicate InPlace(o: Object, values: Object) {
    forall path | PlainLeaf(values, path) ::
      At(Obj(o), path) == At(Obj(values), path) || PlainThere(At(Obj(o), path), At(Obj(values), path).value)
  }

  /** A match leaves nothing to do for the values that are no secrets. */
  lemma MatchInPlace(hash: Hash, known: Ledger, o: Object, values: Object)
    requires Matches(hash, known, o, values, "")
    ensures InPlace(o, values)
  {
    forall path | PlainLeaf(values, path)
      ensures PlainThere(At(Obj(o), path), At(Obj(values), path).value)
    {
      MatchStands(hash, known, o, values, "", path);
    }
  }

  lemma {:induction false} HoldsLeaf(o: Object, values: Object, path: seq<string>)
    requires Holds(o, values) && path != [] && At(Obj(values), path).Ok? && !At(Obj(values), path).value.Obj?
    ensures At(Obj(o), path) == At(Obj(values), path)
    decreases |path|
  {
    var key := path[0];
    assert HoldsAt(o[key], values[key]);
    if |path| > 1 {
      HoldsLeaf(o[key].fields, values[key].fields, path[1..]);
    }
  }

  lemma HoldsInPlace(o: Object, values: Object)
    requires Holds(o, values)
    ensures InPlace(o, values)
  {
    forall path | PlainLeaf(values, path)
      ensures At(Obj(o), path) == At(Obj(values), path)
    {
      HoldsLeaf(o, values, path);
    }
  }

  /** Hiding the secrets leaves what stands at any other key. */
  lemma {:induction false} RedactedLeaf(o: Object, path: seq<string>, value: Json)
    requires path != [] && !SecretName(path[|path| - 1]) && !value.Obj?
    ensures At(Obj(Redact(o)), path).Ok? <==> At(Obj(o), path).Ok?
    ensures At(Obj(Redact(o)), path) == Ok(value) <==> At(Obj(o), path) == Ok(value)
    decreases |path|
  {
    var key := path[0];
    if key in o {
      SecretKeyMeans(key);
      assert Redact(o)[key] == RedactAt(key, o[key]);
      if |path| > 1 && o[key].Obj? {
        RedactedLeaf(o[key].fields, path[1..], value);
      }
    }
  }

  /** What is in place in the redacted object is in place in the object. */
  lemma RedactedInPlace(o: Object, values: Object)
    requires InPlace(Redact(o), values)
    ensures InPlace(o, values)
  {
    forall path | PlainLeaf(values, path)
      ensures
        || At(Obj(o), path) == At(Obj(values), path)
        || PlainThere(At(Obj(o), path), At(Obj(values), path).value)
    {
      var value := At(Obj(values), path).value;
      RedactedLeaf(o, path, value);
      RedactedLeaf(o, path, Null);
      assert At(Obj(Redact(o)), path) == At(Obj(values), path) || PlainThere(At(Obj(Redact(o)), path), value);
    }
  }
}
