/**
 * The comparison rules of the autobrr adapter: its own recursive merge, fingerprints of the secrets that were
 * sent, and the test whether a redacted server object matches a declaration.
 */
module AutobrrMatch {
  import opened JsonValues

  // ---------------------------------------------------------------- the merge

  /** A declared object meets an object, or nothing; an empty one assigns nothing. */
  predicate Compatible(current: Object, values: Object)
    decreases Obj(values), 0
  {
    forall key | key in values && values[key].Obj? :: CompatibleAt(current, key, values[key])
  }

  predicate CompatibleAt(current: Object, key: string, value: Json)
    requires value.Obj?
    decreases value, 1
  {
    key in current && value.fields != map[] ==> current[key].Obj? && Compatible(current[key].fields, value.fields)
  }

  function MergeAt(current: Object, key: string, value: Json): Json
    decreases value, 1
  {
    if !value.Obj? then value
    else if key in current && !current[key].Obj? then current[key]
    else Obj(Merge(if key in current then current[key].fields else map[], value.fields))
  }

  /** What the merge makes of a compatible object. */
  function Merge(current: Object, values: Object): Object
    decreases Obj(values), 0
  {
    map key | key in current.Keys + values.Keys ::
      if key in values then MergeAt(current, key, values[key]) else current[key]
  }

  /** The merge as it is run, one assignment after another into a private copy; a clash of types raises. */
  method MergeByKey(current: Object, values: Object) returns (result: Result<Object>)
    ensures result == if Compatible(current, values) then Ok(Merge(current, values)) else Err
    decreases Obj(values)
  {
    var merged := current;
    var rest := values.Keys;
    while rest != {}
      invariant rest <= values.Keys
      invariant forall key | key in values.Keys - rest && values[key].Obj? :: CompatibleAt(current, key, values[key])
      invariant merged.Keys == current.Keys + (values.Keys - rest)
      invariant forall key | key in merged ::
          merged[key] == if key in values.Keys - rest then MergeAt(current, key, values[key]) else current[key]
    {
      var key :| key in rest;
      var value := values[key];
      if value.Obj? {
        var inner := if key in merged then merged[key] else Obj(map[]);
        if inner.Obj? {
          var nested := MergeByKey(inner.fields, value.fields);
          if nested.Err? {
            assert !CompatibleAt(current, key, value);
            return Err;
          }
          merged := merged[key := Obj(nested.value)];
        } else if value.fields != map[] {
          assert !CompatibleAt(current, key, value);
          return Err;
        }
      } else {
        merged := merged[key := value];
      }
      rest := rest - {key};
    }
    assert merged == Merge(current, values);
    return Ok(merged);
  }

  /** Every declared leaf is in place; a declared object is held by an object, unless it declares nothing. */
  predicate Holds(o: Object, values: Object)
    decreases Obj(values), 0
  {
    forall key | key in values :: key in o && HoldsAt(o[key], values[key])
  }

  predicate HoldsAt(actual: Json, value: Json)
    decreases value, 1
  {
    if value.Obj? then value.fields == map[] || (actual.Obj? && Holds(actual.fields, value.fields))
    else actual == value
  }

  /** The merged object holds the declaration and keeps everything else. */
  lemma {:induction false} MergeHolds(current: Object, values: Object)
    requires Compatible(current, values)
    ensures Holds(Merge(current, values), values)
    ensures forall key | key !in values :: Get(Merge(current, values), key) == Get(current, key)
    decreases Obj(values)
  {
    forall key | key in values && values[key].Obj?
      ensures HoldsAt(Merge(current, values)[key], values[key])
    {
      assert CompatibleAt(current, key, values[key]);
      if values[key].fields != map[] {
        MergeHolds(if key in current then current[key].fields else map[], values[key].fields);
      }
    }
  }

  lemma {:induction false} HoldsCompatible(o: Object, values: Object)
    requires Holds(o, values)
    ensures Compatible(o, values)
    decreases Obj(values)
  {
    forall key | key in values && values[key].Obj?
      ensures CompatibleAt(o, key, values[key])
    {
      if values[key].fields != map[] {
        HoldsCompatible(o[key].fields, values[key].fields);
      }
    }
  }

  lemma {:induction false} HoldsItself(values: Object)
    ensures Holds(values, values)
    decreases Obj(values)
  {
    forall key | key in values && values[key].Obj?
      ensures HoldsAt(values[key], values[key])
    {
      HoldsItself(values[key].fields);
    }
  }

  // ---------------------------------------------------------------- fingerprints of secrets

  function LowerChar(c: char): char {
    if 'A' <= c <= 'Z' then ((c as int) + 32) as char else c
  }

  function Lower(text: string): string {
    seq(|text|, i requires 0 <= i < |text| => LowerChar(text[i]))
  }

  predicate SecretKey(key: string) {
    Lower(key) == "password" || Lower(key) == "apikey"
  }

  datatype Fingerprint = Fingerprint(salt: string, digest: string)

  /** The fingerprints of one object, by the dotted path of the secret. */
  type Ledger = map<string, Fingerprint>

  /** The text of a value, and the salted one-way function over texts. */
  datatype Hash = Hash(text: Json -> string, digest: (string, string) -> string)

  /** Different texts have different digests; values of one text cannot be told apart. */
  ghost predicate Injective(hash: Hash) {
    forall salt: string, a: string, b: string :: hash.digest(salt, a) == hash.digest(salt, b) ==> a == b
  }

  /** Keys without dots, at every depth. */
  predicate Undotted(values: Object)
    decreases Obj(values)
  {
    forall key | key in values :: '.' !in key && (values[key].Obj? ==> Undotted(values[key].fields))
  }

  /** The paths that the fingerprints under one key can have. */
  predicate Under(path: string, prefix: string, key: string) {
    path == prefix + key || prefix + key + "." <= path
  }

  predicate Begins(path: string, key: string) {
    key <= path && (|key| < |path| ==> path[|key|] == '.')
  }

  lemma ShorterKey(path: string, k: string, l: string)
    requires Begins(path, k) && Begins(path, l)
    ensures |k| < |l| ==> '.' in l
  {
    if |k| < |l| {
      assert l[|k|] == path[|k|];
    }
  }

  lemma UnderOnce(path: string, prefix: string, k: string, l: string)
    requires Under(path, prefix, k) && Under(path, prefix, l) && '.' !in k && '.' !in l
    ensures k == l
  {
    var rest := path[|prefix|..];
    assert k <= rest && l <= rest && Begins(rest, k) && Begins(rest, l);
    ShorterKey(rest, k, l);
    ShorterKey(rest, l, k);
  }

  /** All secrets of a declaration are in the ledger. */
  predicate Recorded(hash: Hash, ledger: Ledger, values: Object, prefix: string)
    decreases Obj(values), 0
  {
    forall key | key in values :: RecordedAt(hash, ledger, values[key], key, prefix)
  }

  predicate RecordedAt(hash: Hash, ledger: Ledger, value: Json, key: string, prefix: string)
    decreases value, 1
  {
    if value.Obj? then Recorded(hash, ledger, value.fields, prefix + key + ".")
    else SecretKey(key) ==> prefix + key in ledger && Verifies(hash, ledger[prefix + key], value)
  }

  predicate Verifies(hash: Hash, stored: Fingerprint, value: Json) {
    stored.digest == hash.digest(stored.salt, hash.text(value))
  }

  /** Only the fingerprints under a prefix matter to what is recorded there. */
  lemma {:induction false} RecordedBelow(hash: Hash, a: Ledger, b: Ledger, values: Object, prefix: string)
    requires Recorded(hash, a, values, prefix)
    requires forall path | prefix <= path && path in a :: path in b && b[path] == a[path]
    ensures Recorded(hash, b, values, prefix)
    decreases Obj(values)
  {
    forall key | key in values
      ensures RecordedAt(hash, b, values[key], key, prefix)
    {
      assert RecordedAt(hash, a, values[key], key, prefix);
      assert prefix <= prefix + key;
      if values[key].Obj? {
        forall path | path in a && prefix + key + "." <= path
          ensures prefix <= path
        {
          assert prefix == (prefix + key + ".")[..|prefix|] == path[..|prefix|];
        }
        RecordedBelow(hash, a, b, values[key].fields, prefix + key + ".");
      }
    }
  }

  /** Takes the fingerprints of a declaration; a known secret keeps its salt, a new one draws one. */
  method Fingerprints(hash: Hash, values: Object, known: Ledger, prefix: string) returns (result: Ledger)
    requires Undotted(values)
    ensures Recorded(hash, result, values, prefix)
    ensures forall path | path in result :: prefix <= path && (path in known ==> result[path].salt == known[path].salt)
    decreases Obj(values)
  {
    result := map[];
    var rest := values.Keys;
    while rest != {}
      invariant rest <= values.Keys
      invariant forall key | key in values.Keys - rest :: RecordedAt(hash, result, values[key], key, prefix)
      invariant forall path | path in result :: exists key | key in values.Keys - rest :: Under(path, prefix, key)
      invariant forall path | path in result :: path in known ==> result[path].salt == known[path].salt
    {
      var key :| key in rest;
      ghost var before := result;
      ghost var seen := values.Keys - rest;
      var path := prefix + key;
      if values[key].Obj? {
        var inner := Fingerprints(hash, values[key].fields, known, path + ".");
        result := result + inner;
        RecordedBelow(hash, inner, result, values[key].fields, path + ".");
        assert forall p | p in inner :: Under(p, prefix, key);
      } else if SecretKey(key) {
        var salt: string := *;
        if path in known {
          salt := known[path].salt;
        }
        result := result[path := Fingerprint(salt, hash.digest(salt, hash.text(values[key])))];
        assert Under(path, prefix, key);
      }
      forall other | other in seen
        ensures RecordedAt(hash, result, values[other], other, prefix)
      {
        OthersStay(hash, before, result, values, prefix, key, other);
      }
      forall p | p in result
        ensures exists k | k in seen + {key} :: Under(p, prefix, k)
      {
        if p in before {
          var k :| k in seen && Under(p, prefix, k);
          assert k in seen + {key};
        } else {
          assert Under(p, prefix, key) && key in seen + {key};
        }
      }
      rest := rest - {key};
      assert values.Keys - rest == seen + {key};
    }
    forall path | path in result
      ensures prefix <= path
    {
      var key :| key in values && Under(path, prefix, key);
      assert prefix == (prefix + key)[..|prefix|];
      assert prefix + key <= path;
      assert prefix == path[..|prefix|];
    }
  }

  /** Fingerprints under one key leave what is recorded under another. */
  lemma OthersStay(hash: Hash, before: Ledger, after: Ledger, values: Object, prefix: string, key: string,
        other: string)
    requires Undotted(values) && key in values && other in values && key != other
    requires RecordedAt(hash, before, values[other], other, prefix)
    requires forall path | !Under(path, prefix, key) && path in before :: path in after && after[path] == before[path]
    ensures RecordedAt(hash, after, values[other], other, prefix)
  {
    forall path | Under(path, prefix, other)
      ensures !Under(path, prefix, key)
    {
      if Under(path, prefix, key) {
        UnderOnce(path, prefix, key, other);
      }
    }
    if values[other].Obj? {
      assert forall path | prefix + other + "." <= path :: Under(path, prefix, other);
      RecordedBelow(hash, before, after, values[other].fields, prefix + other + ".");
    } else if SecretKey(other) {
      assert Under(prefix + other, prefix, other);
    }
  }

  // ---------------------------------------------------------------- redaction by the server

  const REDACTED := "<redacted>"

  function RedactAt(key: string, value: Json): Json
    decreases value, 1
  {
    if value.Obj? then Obj(Redact(value.fields))
    else if SecretKey(key) && Truthy(value) then Str(REDACTED)
    else value
  }

  /** What the server shows of an object: a marker in place of every secret. */
  function Redact(o: Object): Object
    decreases Obj(o), 0
  {
    map key | key in o :: RedactAt(key, o[key])
  }

  function KeepAt(stored: Object, key: string, value: Json): Json
    decreases value, 1
  {
    if value.Obj? then Obj(Keep(if key in stored && stored[key].Obj? then stored[key].fields else map[], value.fields))
    else if SecretKey(key) && value == Str(REDACTED) then if key in stored then stored[key] else Str("")
    else value
  }

  /** What the server stores when an object is replaced: markers that come back stand for the stored secrets. */
  function Keep(stored: Object, sent: Object): Object
    decreases Obj(sent), 0
  {
    map key | key in sent :: KeepAt(stored, key, sent[key])
  }

  /** No declared secret is the marker itself. */
  predicate NoMarker(values: Object)
    decreases Obj(values), 0
  {
    forall key | key in values :: NoMarkerAt(key, values[key])
  }

  predicate NoMarkerAt(key: string, value: Json)
    decreases value, 1
  {
    if value.Obj? then NoMarker(value.fields) else SecretKey(key) ==> value != Str(REDACTED)
  }

  /** The declaration reaches the server's store through the markers. */
  lemma {:induction false} KeepHolds(stored: Object, sent: Object, values: Object)
    requires Holds(sent, values) && NoMarker(values)
    ensures Holds(Keep(stored, sent), values)
    decreases Obj(values)
  {
    forall key | key in values
      ensures HoldsAt(Keep(stored, sent)[key], values[key])
    {
      assert NoMarkerAt(key, values[key]) && HoldsAt(sent[key], values[key]);
      if values[key].Obj? && values[key].fields != map[] {
        KeepHolds(if key in stored && stored[key].Obj? then stored[key].fields
            else map[], sent[key].fields, values[key].fields);
      }
    }
  }

  /** Reading an object and writing it back unchanged leaves every stored secret in place. */
  lemma {:induction false} KeepRedacted(stored: Object)
    ensures Keep(stored, Redact(stored)) == stored
    decreases Obj(stored)
  {
    forall key | key in stored
      ensures KeepAt(stored, key, RedactAt(key, stored[key])) == stored[key]
    {
      if stored[key].Obj? {
        KeepRedacted(stored[key].fields);
      }
    }
    assert Keep(stored, Redact(stored)).Keys == stored.Keys;
  }

  // ---------------------------------------------------------------- what an update leaves alone

  /** No declared value lies at the path, above it or below it. */
  predicate Undeclared(values: Object, path: seq<string>)
    decreases |path|
  {
    && path != []
    && (path[0] in values ==> values[path[0]].Obj? && Undeclared(values[path[0]].fields, path[1..]))
  }

  /** At every depth, what the declaration does not mention is as it was. */
  ghost predicate PathsKept(before: Object, after: Object, values: Object) {
    forall path | Undeclared(values, path) :: At(Obj(after), path) == At(Obj(before), path)
  }

  lemma {:induction false} MergeKeeps(current: Object, values: Object, path: seq<string>)
    requires Compatible(current, values) && Undeclared(values, path)
    ensures At(Obj(Merge(current, values)), path) == At(Obj(current), path)
    decreases |path|
  {
    var key := path[0];
    if key in values {
      assert CompatibleAt(current, key, values[key]);
      if key in current && current[key].Obj? && values[key].fields != map[] {
        MergeKeeps(current[key].fields, values[key].fields, path[1..]);
      } else if key !in current {
        MergeKeeps(map[], values[key].fields, path[1..]);
      } else {
        assert values[key].fields == map[];
        EmptyMerge(if current[key].Obj? then current[key].fields else map[]);
      }
    }
  }

  lemma EmptyMerge(current: Object)
    ensures Merge(current, map[]) == current
  {
  }

  lemma CompatibleUnder(current: Object, key: string, values: Object)
    requires Compatible(current, values) && key in values && values[key].Obj? && key in current && current[key].Obj?
    ensures Compatible(current[key].fields, values[key].fields)
  {
    assert CompatibleAt(current, key, values[key]);
  }

  /**
   * An update that was merged into the redacted object keeps, at every depth, what the declaration does not mention,
   * the stored secrets included: their markers come back.
   */
  lemma {:induction false} UpdateKeeps(stored: Object, values: Object, path: seq<string>)
    requires Compatible(Redact(stored), values) && Undeclared(values, path)
    ensures At(Obj(Keep(stored, Merge(Redact(stored), values))), path) == At(Obj(stored), path)
    decreases |path|
  {
    var key := path[0];
    var sent := Merge(Redact(stored), values);
    if key !in values {
      KeepRedacted(stored);
      assert Keep(stored, Redact(stored)) == stored;
      assert key in sent <==> key in stored;
      if key in stored {
        assert sent[key] == Redact(stored)[key];
        assert Keep(stored, Redact(stored))[key] == KeepAt(stored, key, Redact(stored)[key]);
        assert Keep(stored, sent)[key] == stored[key];
      }
    } else {
      assert CompatibleAt(Redact(stored), key, values[key]);
      if key in stored && stored[key].Obj? {
        assert Redact(stored)[key] == Obj(Redact(stored[key].fields));
        EmptyMerge(Redact(stored[key].fields));
        CompatibleUnder(Redact(stored), key, values);
        UpdateKeeps(stored[key].fields, values[key].fields, path[1..]);
      } else if key !in stored {
        assert key !in Redact(stored) && sent[key] == MergeAt(Redact(stored), key, values[key]);
        assert Redact(map[]) == map[];
        UpdateKeeps(map[], values[key].fields, path[1..]);
      }
    }
  }

  // ---------------------------------------------------------------- the match

  /** A missing value counts as the empty one of the declared type. */
  function Default(value: Json): Json {
    match value
    case Bool(_) => Bool(false)
    case Num(_) => Num(0)
    case Arr(_) => Arr([])
    case _ => Str("")
  }

  /** What `actual or {}` gives, unless something stands there that is neither empty nor an object. */
  function OrEmpty(actual: Json): Object {
    if actual.Obj? then actual.fields else map[]
  }

  /** A declared object cannot be looked for in the value. */
  predicate Blocks(actual: Json, value: Json)
    requires value.Obj?
  {
    Truthy(actual) && !actual.Obj? && value.fields != map[]
  }

  /** Whether what is read from the server agrees with the declaration, secrets by their fingerprints. */
  predicate Matches(hash: Hash, known: Ledger, current: Object, values: Object, prefix: string)
    decreases Obj(values), 0
  {
    forall key | key in values :: MatchesAt(hash, known, Get(current, key), key, values[key], prefix)
  }

  predicate MatchesAt(hash: Hash, known: Ledger, actual: Json, key: string, value: Json, prefix: string)
    decreases value, 1
  {
    if value.Obj? then
      !Blocks(actual, value) && Matches(hash, known, OrEmpty(actual), value.fields, prefix + key + ".")
    else if SecretKey(key) then
      || (actual == Str("") && !Truthy(value))
      || (Truthy(actual) && prefix + key in known && Verifies(hash, known[prefix + key], value))
    else
      (if actual.Null? then Default(value) else actual) == value
  }

  /** Somewhere a declared object cannot be looked for. */
  predicate Clashes(current: Object, values: Object)
    decreases Obj(values), 0
  {
    exists key | key in values && values[key].Obj? :: ClashesAt(Get(current, key), values[key])
  }

  predicate ClashesAt(actual: Json, value: Json)
    requires value.Obj?
    decreases value, 1
  {
    Blocks(actual, value) || Clashes(OrEmpty(actual), value.fields)
  }

  /**
   * The test as it is run: one declared key after another up to the first that disagrees. A value in the place of a
   * declared object raises if the test comes to it.
   */
  method MatchByKey(hash: Hash, known: Ledger, current: Object, values: Object, prefix: string)
    returns (result: Result<bool>)
    ensures result == Ok(true) <==> Matches(hash, known, current, values, prefix)
    ensures result.Err? ==> Clashes(current, values)
    decreases Obj(values)
  {
    var rest := values.Keys;
    while rest != {}
      invariant rest <= values.Keys
      invariant forall key | key in values.Keys - rest ::
          MatchesAt(hash, known, Get(current, key), key, values[key], prefix)
    {
      var key :| key in rest;
      var actual, value := Get(current, key), values[key];
      if value.Obj? {
        if Blocks(actual, value) {
          assert ClashesAt(actual, value) && !MatchesAt(hash, known, actual, key, value, prefix);
          return Err;
        }
        var inner := MatchByKey(hash, known, OrEmpty(actual), value.fields, prefix + key + ".");
        if inner != Ok(true) {
          assert inner.Err? ==> ClashesAt(actual, value);
          assert !MatchesAt(hash, known, actual, key, value, prefix);
          return inner;
        }
      } else if !MatchesAt(hash, known, actual, key, value, prefix) {
        return Ok(false);
      }
      rest := rest - {key};
    }
    result := Ok(true);
  }

  /** What can be merged can be compared. */
  lemma {:induction false} CompatibleIsComparable(current: Object, values: Object)
    requires Compatible(current, values)
    ensures !Clashes(current, values)
    decreases Obj(values)
  {
    forall key | key in values && values[key].Obj?
      ensures !ClashesAt(Get(current, key), values[key])
    {
      assert CompatibleAt(current, key, values[key]);
      if key in current && values[key].fields != map[] {
        CompatibleIsComparable(current[key].fields, values[key].fields);
      } else {
        NothingClashes(OrEmpty(Get(current, key)), values[key].fields);
      }
    }
  }

  /** Nothing clashes with what is missing, nor with an empty declaration. */
  lemma {:induction false} NothingClashes(current: Object, values: Object)
    requires current == map[] || values == map[]
    ensures !Clashes(current, values)
    decreases Obj(values)
  {
    forall key | key in values && values[key].Obj?
      ensures !ClashesAt(Get(current, key), values[key])
    {
      NothingClashes(map[], values[key].fields);
    }
  }

  /** All declared values are empty ones of their type, and none is a secret. */
  predicate Vacant(values: Object)
    decreases Obj(values), 0
  {
    forall key | key in values :: VacantAt(key, values[key])
  }

  predicate VacantAt(key: string, value: Json)
    decreases value, 1
  {
    if value.Obj? then Vacant(value.fields) else !SecretKey(key) && value in {Bool(false), Num(0), Str(""), Arr([])}
  }

  /** What the server does not have at all matches just the empty values. */
  lemma {:induction false} AbsentMatches(hash: Hash, known: Ledger, values: Object, prefix: string)
    ensures Matches(hash, known, map[], values, prefix) <==> Vacant(values)
    decreases Obj(values)
  {
    forall key | key in values
      ensures MatchesAt(hash, known, Null, key, values[key], prefix) <==> VacantAt(key, values[key])
    {
      if values[key].Obj? {
        AbsentMatches(hash, known, values[key].fields, prefix + key + ".");
      }
    }
  }

  /** No null is declared, and an empty secret is the empty string. */
  predicate Matchable(values: Object)
    decreases Obj(values), 0
  {
    forall key | key in values :: MatchableAt(key, values[key])
  }

  predicate MatchableAt(key: string, value: Json)
    decreases value, 1
  {
    if value.Obj? then Matchable(value.fields)
    else if SecretKey(key) then Truthy(value) || value == Str("")
    else !value.Null?
  }

  /**
   * Redacted matching is exact. An object that holds a declaration, read back with its secrets hidden, matches it by
   * the saved fingerprints just when the declaration has no null and no empty secret but the empty string.
   */
  lemma {:induction false} RedactedMatch(hash: Hash, known: Ledger, o: Object, values: Object, prefix: string)
    requires Holds(o, values) && Recorded(hash, known, values, prefix)
    ensures Matches(hash, known, Redact(o), values, prefix) <==> Matchable(values)
    decreases Obj(values)
  {
    forall key | key in values
      ensures MatchesAt(hash, known, Get(Redact(o), key), key, values[key], prefix) <==> MatchableAt(key, values[key])
    {
      assert RecordedAt(hash, known, values[key], key, prefix) && HoldsAt(o[key], values[key]);
      if values[key].Obj? && values[key].fields != map[] {
        RedactedMatch(hash, known, o[key].fields, values[key].fields, prefix + key + ".");
      }
    }
  }

  /** The whole cycle: what is sent after a merge with the redacted object, stored, and read back. */
  lemma UpdateMatches(hash: Hash, known: Ledger, stored: Object, values: Object)
    requires Compatible(Redact(stored), values) && NoMarker(values) && Recorded(hash, known, values, "")
    ensures
      var after := Keep(stored, Merge(Redact(stored), values));
      && Holds(after, values)
      && (Matches(hash, known, Redact(after), values, "") <==> Matchable(values))
  {
    MergeHolds(Redact(stored), values);
    KeepHolds(stored, Merge(Redact(stored), values), values);
    RedactedMatch(hash, known, Keep(stored, Merge(Redact(stored), values)), values, "");
  }

  /** Both declarations give secrets of the same text, except where both the server's and the declared one are empty. */
  predicate SecretsAgree(hash: Hash, current: Object, before: Object, values: Object)
    decreases Obj(values), 0
  {
    forall key | key in values && key in before ::
      SecretsAgreeAt(hash, Get(current, key), key, before[key], values[key])
  }

  predicate SecretsAgreeAt(hash: Hash, actual: Json, key: string, before: Json, value: Json)
    decreases value, 1
  {
    if value.Obj? then before.Obj? ==> SecretsAgree(hash, OrEmpty(actual), before.fields, value.fields)
    else SecretKey(key) && !before.Obj? ==>
      hash.text(value) == hash.text(before) || (actual == Str("") && !Truthy(value))
  }

  /** A changed secret at any depth is noticed. */
  lemma {:induction false} ChangedSecretFails(hash: Hash, known: Ledger, current: Object, before: Object,
        values: Object, prefix: string)
    requires Injective(hash) && Recorded(hash, known, before, prefix)
    ensures !SecretsAgree(hash, current, before, values) ==> !Matches(hash, known, current, values, prefix)
    decreases Obj(values)
  {
    if Matches(hash, known, current, values, prefix) {
      forall key | key in values && key in before
        ensures SecretsAgreeAt(hash, Get(current, key), key, before[key], values[key])
      {
        assert MatchesAt(hash, known, Get(current, key), key, values[key], prefix);
        assert RecordedAt(hash, known, before[key], key, prefix);
        if values[key].Obj? && before[key].Obj? {
          ChangedSecretFails(hash, known, OrEmpty(Get(current, key)), before[key].fields, values[key].fields,
            prefix + key + ".");
        }
      }
    }
  }

  // ---------------------------------------------------------------- fingerprints in step with the server

  /** The stored secret has the text of the declared one, or both are empty. */
  predicate SecretHeld(hash: Hash, actual: Json, value: Json) {
    hash.text(actual) == hash.text(value) || (actual == Str("") && !Truthy(value))
  }

  /** The server's object holds every declared secret. */
  predicate SecretsHeld(hash: Hash, o: Object, values: Object)
    decreases Obj(values), 0
  {
    forall key | key in values :: SecretsHeldAt(hash, Get(o, key), key, values[key])
  }

  predicate SecretsHeldAt(hash: Hash, actual: Json, key: string, value: Json)
    decreases value, 1
  {
    if value.Obj? then SecretsHeld(hash, OrEmpty(actual), value.fields)
    else SecretKey(key) ==> SecretHeld(hash, actual, value)
  }

  /** Each fingerprint of a declared secret is that of the stored one, unless the declared one is stored already. */
  predicate InStep(hash: Hash, known: Ledger, o: Object, values: Object, prefix: string)
    decreases Obj(values), 0
  {
    forall key | key in values :: InStepAt(hash, known, Get(o, key), key, values[key], prefix)
  }

  predicate InStepAt(hash: Hash, known: Ledger, actual: Json, key: string, value: Json, prefix: string)
    decreases value, 1
  {
    if value.Obj? then InStep(hash, known, OrEmpty(actual), value.fields, prefix + key + ".")
    else SecretKey(key) && prefix + key in known ==>
      Verifies(hash, known[prefix + key], actual) || SecretHeld(hash, actual, value)
  }

  /** An object that holds a declaration holds its secrets. */
  lemma {:induction false} HoldsSecrets(hash: Hash, o: Object, values: Object)
    requires Holds(o, values)
    ensures SecretsHeld(hash, o, values)
    decreases Obj(values)
  {
    forall key | key in values
      ensures SecretsHeldAt(hash, Get(o, key), key, values[key])
    {
      assert HoldsAt(o[key], values[key]);
      if values[key].Obj? {
        if values[key].fields != map[] {
          HoldsSecrets(hash, o[key].fields, values[key].fields);
        }
      }
    }
  }

  /** An object that holds a declaration is in step for it, whatever the ledger says. */
  lemma {:induction false} HoldsInStep(hash: Hash, known: Ledger, o: Object, values: Object, prefix: string)
    requires Holds(o, values)
    ensures InStep(hash, known, o, values, prefix)
    decreases Obj(values)
  {
    forall key | key in values
      ensures InStepAt(hash, known, Get(o, key), key, values[key], prefix)
    {
      assert HoldsAt(o[key], values[key]);
      if values[key].Obj? && values[key].fields != map[] {
        HoldsInStep(hash, known, o[key].fields, values[key].fields, prefix + key + ".");
      }
    }
  }

  /** A redacted object matches by fingerprints alone: it holds the declared secrets if and only if they are in step. */
  lemma {:induction false} MatchedSecrets(hash: Hash, known: Ledger, o: Object, values: Object, prefix: string)
    requires Injective(hash) && Matches(hash, known, Redact(o), values, prefix)
    ensures SecretsHeld(hash, o, values) <==> InStep(hash, known, o, values, prefix)
    decreases Obj(values)
  {
    forall key | key in values
      ensures
        SecretsHeldAt(hash, Get(o, key), key, values[key]) <==>
        InStepAt(hash, known, Get(o, key), key, values[key], prefix)
    {
      assert MatchesAt(hash, known, Get(Redact(o), key), key, values[key], prefix);
      if values[key].Obj? {
        assert OrEmpty(Get(Redact(o), key)) == Redact(OrEmpty(Get(o, key)));
        MatchedSecrets(hash, known, OrEmpty(Get(o, key)), values[key].fields, prefix + key + ".");
      } else if SecretKey(key) {
        MatchedSecret(hash, known, o, key, values[key], prefix);
      }
    }
  }

  lemma MatchedSecret(hash: Hash, known: Ledger, o: Object, key: string, value: Json, prefix: string)
    requires Injective(hash) && SecretKey(key) && !value.Obj?
    requires MatchesAt(hash, known, Get(Redact(o), key), key, value, prefix)
    ensures SecretHeld(hash, Get(o, key), value) <==> InStepAt(hash, known, Get(o, key), key, value, prefix)
  {
    if Get(Redact(o), key) == Str("") {
      assert key in o && RedactAt(key, o[key]) == Str("") && |REDACTED| == 10;
      assert Get(o, key) == Str("");
    }
    if prefix + key in known {
      SameDigest(hash, known[prefix + key], Get(o, key), value);
    }
  }

  lemma SameDigest(hash: Hash, stored: Fingerprint, a: Json, b: Json)
    requires Injective(hash)
    ensures Verifies(hash, stored, a) && Verifies(hash, stored, b) ==> hash.text(a) == hash.text(b)
  {
  }

  // ---------------------------------------------------------------- objects without secrets

  /** Neither a null nor a secret at any depth, as in the settings of filters and actions. */
  predicate Plain(values: Object)
    decreases Obj(values), 0
  {
    forall key | key in values ::
        if values[key].Obj? then Plain(values[key].fields) else !values[key].Null? && !SecretKey(key)
  }

  /** Without secrets no fingerprints are needed. */
  lemma {:induction false} PlainMatch(hash: Hash, o: Object, values: Object, prefix: string)
    requires Holds(o, values) && Plain(values)
    ensures Matches(hash, map[], o, values, prefix)
    decreases Obj(values)
  {
    forall key | key in values
      ensures MatchesAt(hash, map[], Get(o, key), key, values[key], prefix)
    {
      assert HoldsAt(o[key], values[key]);
      if values[key].Obj? && values[key].fields != map[] {
        PlainMatch(hash, o[key].fields, values[key].fields, prefix + key + ".");
      }
    }
  }

  /** A null is declared for something that is no secret, at some depth. */
  predicate HasNull(values: Object)
    decreases Obj(values), 0
  {
    exists key | key in values :: NullAt(key, values[key])
  }

  predicate NullAt(key: string, value: Json)
    decreases value, 1
  {
    if value.Obj? then HasNull(value.fields) else value.Null? && !SecretKey(key)
  }

  /** Such a declaration is never matched, whatever the server holds. */
  lemma {:induction false} NullNeverMatches(hash: Hash, known: Ledger, current: Object, values: Object, prefix: string)
    requires HasNull(values)
    ensures !Matches(hash, known, current, values, prefix)
    decreases Obj(values)
  {
    var key :| key in values && NullAt(key, values[key]);
    if values[key].Obj? {
      NullNeverMatches(hash, known, OrEmpty(Get(current, key)), values[key].fields, prefix + key + ".");
    }
    assert !MatchesAt(hash, known, Get(current, key), key, values[key], prefix);
  }
}
