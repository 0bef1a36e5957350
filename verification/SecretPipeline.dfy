/**
 * Secret references from declaration to run: evaluation replaces each `_secret` path by the name of a
 * credential, systemd loads the listed files under those names, and the adapter puts the contents back.
 */
module SecretPipeline {
  import opened JsonValues

  // ---------------------------------------------------------------- evaluation time

  /** The name under which a secret file is loaded; a hash of its path. */
  type Naming = string -> string

  predicate IsSecret(value: Json) {
    value.Obj? && "_secret" in value.fields
  }

  /** The referenced files, in no particular order and without repetition. */
  function SecretPaths(value: Json): set<Json>
    decreases value
  {
    match value
    case Obj(fields) =>
      if "_secret" in fields then {fields["_secret"]}
      else set key, path | key in fields && path in SecretPaths(fields[key]) :: path
    case Arr(items) => set i, path | 0 <= i < |items| && path in SecretPaths(items[i]) :: path
    case _ => {}
  }

  function Lower(c: char): char {
    if 'A' <= c <= 'Z' then ((c as int) + 32) as char else c
  }

  /** Lower case, without the separators `_`, `-` and `.`. */
  function Normalized(key: string): string {
    if key == "" then ""
    else if key[0] in {'_', '-', '.'} then Normalized(key[1..])
    else [Lower(key[0])] + Normalized(key[1..])
  }

  predicate HasInfix(needle: string, text: string) {
    exists i | 0 <= i <= |text| :: needle <= text[i..]
  }

  const NEEDLES: set<string> := {
    "apikey", "authorization", "credential", "currentpw", "passphrase",
    "password", "privatekey", "secret", "token", "newpw"
  }

  predicate SensitiveKey(key: string) {
    exists needle | needle in NEEDLES :: HasInfix(needle, Normalized(key))
  }

  // ---------------------------------------------------------------- sensitive keys, letter by letter

  /** From the position on the key has the letters of the word in either case, with separators among them. */
  predicate Spells(key: string, i: nat, word: string)
    requires i <= |key|
    decreases |key| - i
  {
    word == "" ||
    (i < |key| &&
     if key[i] == '_' || key[i] == '-' || key[i] == '.' then Spells(key, i + 1, word)
     else (key[i] == word[0] || key[i] as int + 32 == word[0] as int) && Spells(key, i + 1, word[1..]))
  }

  /** Somewhere the key spells one of the ten words. */
  predicate SpellsSecret(key: string) {
    exists i | 0 <= i <= |key| ::
      || Spells(key, i, "apikey") || Spells(key, i, "authorization") || Spells(key, i, "credential")
      || Spells(key, i, "currentpw") || Spells(key, i, "passphrase") || Spells(key, i, "password")
      || Spells(key, i, "privatekey") || Spells(key, i, "secret") || Spells(key, i, "token") || Spells(key, i, "newpw")
  }

  predicate LowerCase(word: string) {
    forall i | 0 <= i < |word| :: 'a' <= word[i] <= 'z'
  }

  lemma {:induction false} SpellsPrefix(key: string, i: nat, word: string)
    requires i <= |key| && LowerCase(word)
    ensures Spells(key, i, word) <==> word <= Normalized(key[i..])
    decreases |key| - i
  {
    if i < |key| {
      assert key[i..][1..] == key[i + 1..];
      if key[i] in {'_', '-', '.'} {
        SpellsPrefix(key, i + 1, word);
      } else if word != "" {
        SpellsPrefix(key, i + 1, word[1..]);
        assert word == [word[0]] + word[1..];
      }
    }
  }

  /** Every end of the normalised key is the normalised form of an end of the key. */
  lemma {:induction false} EndsNormalized(key: string, j: nat) returns (i: nat)
    requires j <= |Normalized(key)|
    ensures i <= |key| && Normalized(key[i..]) == Normalized(key)[j..]
  {
    i := 0;
    if j > 0 {
      if key[0] in {'_', '-', '.'} {
        i := EndsNormalized(key[1..], j);
      } else {
        i := EndsNormalized(key[1..], j - 1);
      }
      assert key[1..][i..] == key[i + 1..];
      i := i + 1;
    }
  }

  lemma {:induction false} NormalizedEnds(key: string, i: nat) returns (j: nat)
    requires i <= |key|
    ensures j <= |Normalized(key)| && Normalized(key[i..]) == Normalized(key)[j..]
  {
    j := 0;
    if i > 0 {
      assert key[1..][i - 1..] == key[i..];
      j := NormalizedEnds(key[1..], i - 1);
      if key[0] !in {'_', '-', '.'} {
        j := j + 1;
      }
    }
  }

  lemma InfixIsSpelled(key: string, word: string) returns (i: nat)
    requires LowerCase(word) && HasInfix(word, Normalized(key))
    ensures i <= |key| && Spells(key, i, word)
  {
    var j :| 0 <= j <= |Normalized(key)| && word <= Normalized(key)[j..];
    i := EndsNormalized(key, j);
    SpellsPrefix(key, i, word);
  }

  lemma SpelledIsInfix(key: string, i: nat, word: string)
    requires LowerCase(word) && i <= |key| && Spells(key, i, word)
    ensures HasInfix(word, Normalized(key))
  {
    SpellsPrefix(key, i, word);
    var j := NormalizedEnds(key, i);
    assert word <= Normalized(key)[j..];
  }

  lemma NeedlesMean(needle: string)
    ensures needle in NEEDLES <==>
      || needle == "apikey" || needle == "authorization" || needle == "credential" || needle == "currentpw"
      || needle == "passphrase" || needle == "password" || needle == "privatekey" || needle == "secret"
      || needle == "token" || needle == "newpw"
    ensures needle in NEEDLES ==> LowerCase(needle)
  {
  }

  lemma SpelledWord(key: string) returns (word: string, i: nat)
    requires SpellsSecret(key)
    ensures word in NEEDLES && i <= |key| && Spells(key, i, word)
  {
    i :| 0 <= i <= |key| &&
      (Spells(key, i, "apikey") || Spells(key, i, "authorization") || Spells(key, i, "credential")
       || Spells(key, i, "currentpw") || Spells(key, i, "passphrase") || Spells(key, i, "password")
       || Spells(key, i, "privatekey") || Spells(key, i, "secret") || Spells(key, i, "token")
       || Spells(key, i, "newpw"));
    word :| word in NEEDLES && Spells(key, i, word);
  }

  /** A key is sensitive just when it spells one of the ten words, in any case and with any separators. */
  lemma SensitiveMeans(key: string)
    ensures SensitiveKey(key) <==> SpellsSecret(key)
  {
    if SensitiveKey(key) {
      var needle :| needle in NEEDLES && HasInfix(needle, Normalized(key));
      NeedlesMean(needle);
      var i := InfixIsSpelled(key, needle);
    }
    if SpellsSecret(key) {
      var word, i := SpelledWord(key);
      NeedlesMean(word);
      SpelledIsInfix(key, i, word);
    }
  }

  /** Sensitive keys hold the empty string or a reference, and references hold nothing else. */
  predicate ValidSecrets(value: Json)
    decreases value
  {
    match value
    case Obj(fields) =>
      if "_secret" in fields then fields.Keys == {"_secret"}
      else forall key | key in fields ::
        && (SensitiveKey(key) ==> fields[key] == Str("") || IsSecret(fields[key]))
        && ValidSecrets(fields[key])
    case Arr(items) => forall i | 0 <= i < |items| :: ValidSecrets(items[i])
    case _ => true
  }

  /** The value written to the configuration file; only a path that is a string can be hashed. */
  function Runtime(name: Naming, value: Json): Result<Json>
    decreases value
  {
    match value
    case Obj(fields) =>
      if "_secret" in fields then
        if fields["_secret"].Str? then Ok(Obj(map["_credential" := Str(name(fields["_secret"].s))])) else Err
      else if forall key | key in fields :: Runtime(name, fields[key]).Ok? then
        Ok(Obj(map key | key in fields :: Runtime(name, fields[key]).value))
      else Err
    case Arr(items) =>
      if forall i | 0 <= i < |items| :: Runtime(name, items[i]).Ok? then
        Ok(Arr(seq(|items|, i requires 0 <= i < |items| => Runtime(name, items[i]).value)))
      else Err
    case _ => Ok(value)
  }

  // ---------------------------------------------------------------- start of the unit

  /** The credentials directory after loading the listed files; a later file of one name replaces an earlier one. */
  ghost predicate Loaded(name: Naming, files: map<string, string>, paths: set<Json>, directory: map<string, string>) {
    && (forall credential | credential in directory ::
        exists path | path in paths ::
            path.Str? && path.s in files && credential == name(path.s) && directory[credential] == files[path.s])
    && (forall path | path in paths && path.Str? :: name(path.s) in directory)
  }

  // ---------------------------------------------------------------- run time

  predicate NameChar(c: char) {
    'A' <= c <= 'Z' || 'a' <= c <= 'z' || '0' <= c <= '9' || c == '_' || c == '-'
  }

  predicate CredentialName(name: string) {
    name != "" && forall i | 0 <= i < |name| :: NameChar(name[i])
  }

  function StripNewlines(text: string): (stripped: string)
    ensures stripped <= text
    ensures stripped != "" ==> stripped[|stripped| - 1] !in {'\r', '\n'}
    ensures forall i | |stripped| <= i < |text| :: text[i] in {'\r', '\n'}
  {
    if text != "" && text[|text| - 1] in {'\r', '\n'} then StripNewlines(text[..|text| - 1]) else text
  }

  /** Replaces credential references by the contents of the loaded files. */
  function Resolve(directory: map<string, string>, value: Json): Result<Json>
    decreases value
  {
    match value
    case Obj(fields) =>
      if "_credential" in fields then
        var name := fields["_credential"];
        if fields.Keys == {"_credential"} && name.Str? && CredentialName(name.s) && name.s in directory
            && StripNewlines(directory[name.s]) != ""
        then Ok(Str(StripNewlines(directory[name.s])))
        else Err
      else if forall key | key in fields :: Resolve(directory, fields[key]).Ok? then
        Ok(Obj(map key | key in fields :: Resolve(directory, fields[key]).value))
      else Err
    case Arr(items) =>
      if forall i | 0 <= i < |items| :: Resolve(directory, items[i]).Ok? then
        Ok(Arr(seq(|items|, i requires 0 <= i < |items| => Resolve(directory, items[i]).value)))
      else Err
    case _ => Ok(value)
  }

  /** The credentials that resolving opens. */
  function Reads(value: Json): set<string>
    decreases value
  {
    match value
    case Obj(fields) =>
      if "_credential" in fields then
        var name := fields["_credential"];
        if fields.Keys == {"_credential"} && name.Str? && CredentialName(name.s) then {name.s} else {}
      else set key, name | key in fields && name in Reads(fields[key]) :: name
    case Arr(items) => set i, name | 0 <= i < |items| && name in Reads(items[i]) :: name
    case _ => {}
  }

  // ---------------------------------------------------------------- what the pipeline means

  /** The declaration with every reference replaced by the contents of its file. */
  function Meaning(files: map<string, string>, value: Json): Json
    decreases value
  {
    match value
    case Obj(fields) =>
      if "_secret" in fields then
        if fields["_secret"].Str? && fields["_secret"].s in files then Str(StripNewlines(files[fields["_secret"].s]))
            else Null
      else Obj(map key | key in fields :: Meaning(files, fields[key]))
    case Arr(items) => Arr(seq(|items|, i requires 0 <= i < |items| => Meaning(files, items[i])))
    case _ => value
  }

  /** No object uses the key that marks references at run time. */
  predicate NoCredentialKey(value: Json)
    decreases value
  {
    match value
    case Obj(fields) =>
      "_secret" in fields || ("_credential" !in fields && forall key | key in fields :: NoCredentialKey(fields[key]))
    case Arr(items) => forall i | 0 <= i < |items| :: NoCredentialKey(items[i])
    case _ => true
  }

  /** Letters, digits, underscores and hyphens, and at least one of them. */
  predicate Allowed(name: string) {
    name != "" && forall c | c in name ::
      || 'A' <= c <= 'Z' || 'a' <= c <= 'z' || c == '_' || c == '-'
      || c in {'0', '1', '2', '3', '4', '5', '6', '7', '8', '9'}
  }

  lemma AllowedMeans(name: string)
    ensures CredentialName(name) <==> Allowed(name)
  {
    if CredentialName(name) {
      forall c | c in name
        ensures NameChar(c)
      {
        var i :| 0 <= i < |name| && name[i] == c;
      }
    }
    forall i | 0 <= i < |name|
      ensures name[i] in name
    {
    }
  }

  /** The text without the line ends after its last other character. */
  predicate Stripped(text: string, stripped: string) {
    && stripped <= text && (forall i | |stripped| <= i < |text| :: text[i] == '\r' || text[i] == '\n')
    && (stripped == "" || (stripped[|stripped| - 1] != '\r' && stripped[|stripped| - 1] != '\n'))
  }

  lemma {:induction false} StrippedMeans(text: string, stripped: string)
    ensures Stripped(text, stripped) <==> stripped == StripNewlines(text)
  {
    if text != "" && text[|text| - 1] in {'\r', '\n'} {
      var shorter := text[..|text| - 1];
      StrippedMeans(shorter, stripped);
      assert Stripped(text, stripped) ==> |stripped| < |text|;
      assert stripped <= text && |stripped| < |text| ==> stripped <= shorter;
    } else if Stripped(text, stripped) {
      assert |stripped| == |text|;
    }
  }

  /**
   * A reference resolves if and only if it is nothing but a reference, its name is allowed and loaded, and the file
   * has contents besides its final line ends, which are then the result.
   */
  lemma ReferenceResolves(directory: map<string, string>, fields: Object, text: string)
    requires "_credential" in fields
    ensures Resolve(directory, Obj(fields)) == Ok(Str(text)) <==>
        exists name | name in directory ::
          && fields == map["_credential" := Str(name)] && Allowed(name)
          && Stripped(directory[name], text) && text != ""
    ensures Resolve(directory, Obj(fields)).Ok? ==> Resolve(directory, Obj(fields)).value.Str?
  {
    var reference := fields["_credential"];
    assert fields.Keys == {"_credential"} <==> fields == map["_credential" := reference];
    if reference.Str? {
      AllowedMeans(reference.s);
      if reference.s in directory {
        StrippedMeans(directory[reference.s], text);
      }
    }
  }

  /** Different referenced files have different and well-formed credential names. */
  ghost predicate GoodNames(name: Naming, paths: set<Json>) {
    && (forall p | p in paths && p.Str? :: Allowed(name(p.s)))
    && (forall p, q | p in paths && q in paths && p.Str? && q.Str? && name(p.s) == name(q.s) :: p == q)
  }

  /** Every referenced file has contents besides its final line ends. */
  ghost predicate Nonempty(files: map<string, string>, paths: set<Json>) {
    forall p | p in paths && p.Str? :: p.s in files && StripNewlines(files[p.s]) != ""
  }

  lemma {:induction false} LowerCaseIsNormal(key: string)
    requires forall i | 0 <= i < |key| :: 'a' <= key[i] <= 'z'
    ensures Normalized(key) == key
  {
    if key != "" {
      LowerCaseIsNormal(key[1..]);
    }
  }

  lemma CredentialIsSensitive()
    ensures SensitiveKey("_credential")
  {
    LowerCaseIsNormal("credential");
    assert "_credential"[1..] == "credential" == "credential"[0..];
    assert HasInfix("credential", Normalized("_credential"));
  }

  lemma ReferenceMeans(name: Naming, files: map<string, string>, all: set<Json>, directory: map<string, string>,
        path: Json)
    requires path.Str? && path in all && GoodNames(name, all) && Loaded(name, files, all, directory)
    ensures name(path.s) in directory && path.s in files && directory[name(path.s)] == files[path.s]
  {
    var other :| other in all && other.Str? && other.s in files && name(path.s) == name(other.s) &&
        directory[name(path.s)] == files[other.s];
    assert other == path;
  }

  /** Every referenced file exists. */
  ghost predicate AllExist(files: map<string, string>, paths: set<Json>) {
    forall p | p in paths && p.Str? :: p.s in files
  }

  lemma LoadedExist(name: Naming, files: map<string, string>, paths: set<Json>, directory: map<string, string>)
    requires GoodNames(name, paths) && Loaded(name, files, paths, directory)
    ensures AllExist(files, paths)
  {
    forall p | p in paths && p.Str?
      ensures p.s in files
    {
      ReferenceMeans(name, files, paths, directory, p);
    }
  }

  /** The listed files can be loaded, so that the unit starts, if and only if all of them exist. */
  lemma LoadingSucceeds(name: Naming, files: map<string, string>, paths: set<Json>)
    requires GoodNames(name, paths)
    ensures (exists directory :: Loaded(name, files, paths, directory)) <==> AllExist(files, paths)
  {
    if AllExist(files, paths) {
      var directory := map p | p in paths && p.Str? :: name(p.s) := files[p.s];
      assert Loaded(name, files, paths, directory);
    }
    forall directory | Loaded(name, files, paths, directory)
      ensures AllExist(files, paths)
    {
      LoadedExist(name, files, paths, directory);
    }
  }

  /** One value goes through the pipeline with its meaning. */
  ghost predicate Means(name: Naming, files: map<string, string>, directory: map<string, string>, value: Json) {
    Runtime(name, value).Ok? &&
    var resolved := Resolve(directory, Runtime(name, value).value);
    && (resolved.Ok? <==> NoCredentialKey(value) && Nonempty(files, SecretPaths(value)))
    && (resolved.Ok? ==> resolved.value == Meaning(files, value))
  }

  lemma ObjectNonempty(files: map<string, string>, fields: Object)
    requires "_secret" !in fields
    ensures Nonempty(files, SecretPaths(Obj(fields))) <==>
        forall key | key in fields :: Nonempty(files, SecretPaths(fields[key]))
  {
    assert forall key, p | key in fields && p in SecretPaths(fields[key]) :: p in SecretPaths(Obj(fields));
  }

  lemma ObjectMeans(name: Naming, files: map<string, string>, directory: map<string, string>, fields: Object)
    requires "_secret" !in fields && "_credential" !in fields && Runtime(name, Obj(fields)).Ok?
    requires forall key | key in fields :: Means(name, files, directory, fields[key])
    ensures Means(name, files, directory, Obj(fields))
  {
    var value := Obj(fields);
    ObjectNonempty(files, fields);
    var written := Runtime(name, value).value.fields;
    assert forall key | key in fields :: written[key] == Runtime(name, fields[key]).value;
    if Resolve(directory, Obj(written)).Ok? {
      assert Resolve(directory, Obj(written)).value.fields == Meaning(files, value).fields;
    }
  }

  lemma ArrayMeans(name: Naming, files: map<string, string>, directory: map<string, string>, items: seq<Json>)
    requires Runtime(name, Arr(items)).Ok?
    requires forall i | 0 <= i < |items| :: Means(name, files, directory, items[i])
    ensures Means(name, files, directory, Arr(items))
  {
    var value := Arr(items);
    assert Nonempty(files, SecretPaths(value)) <==>
        forall i | 0 <= i < |items| :: Nonempty(files, SecretPaths(items[i])) by {
      assert forall i, p | 0 <= i < |items| && p in SecretPaths(items[i]) :: p in SecretPaths(value);
    }
    var written := Runtime(name, value).value.items;
    assert forall i | 0 <= i < |items| :: written[i] == Runtime(name, items[i]).value;
    if Resolve(directory, Arr(written)).Ok? {
      assert Resolve(directory, Arr(written)).value.items == Meaning(files, value).items;
    }
  }

  /**
   * An accepted declaration resolves exactly when no object uses the reserved key and no referenced file is
   * empty, and then to the declaration with every reference replaced by its file's contents.
   */
  lemma {:induction false} PipelineMeans(
      name: Naming, files: map<string, string>, all: set<Json>, directory: map<string, string>, value: Json)
    requires ValidSecrets(value) && Runtime(name, value).Ok? && SecretPaths(value) <= all
    requires GoodNames(name, all) && Loaded(name, files, all, directory)
    ensures Means(name, files, directory, value)
    decreases value
  {
    match value
    case Obj(fields) =>
      if "_secret" in fields {
        ReferenceMeans(name, files, all, directory, fields["_secret"]);
        AllowedMeans(name(fields["_secret"].s));
      } else if "_credential" in fields {
        CredentialIsSensitive();
        ReservedKeyFails(name, directory, fields);
      } else {
        forall key | key in fields
          ensures Means(name, files, directory, fields[key])
        {
          assert SecretPaths(fields[key]) <= SecretPaths(value);
          PipelineMeans(name, files, all, directory, fields[key]);
        }
        ObjectMeans(name, files, directory, fields);
      }
    case Arr(items) =>
      forall i | 0 <= i < |items|
        ensures Means(name, files, directory, items[i])
      {
        assert SecretPaths(items[i]) <= SecretPaths(value);
        PipelineMeans(name, files, all, directory, items[i]);
      }
      ArrayMeans(name, files, directory, items);
    case _ =>
  }

  /**
   * The whole way of an accepted declaration. Its unit starts if and only if the referenced files exist; whatever the
   * unit then finds in its credentials directory, the declaration resolves exactly when no object uses the reserved
   * key and no file is empty, and to its meaning.
   */
  lemma StartedPipelineMeans(name: Naming, files: map<string, string>, value: Json)
    requires ValidSecrets(value) && Runtime(name, value).Ok? && GoodNames(name, SecretPaths(value))
    ensures (exists directory :: Loaded(name, files, SecretPaths(value), directory)) <==>
        AllExist(files, SecretPaths(value))
    ensures forall directory | Loaded(name, files, SecretPaths(value), directory) ::
        Means(name, files, directory, value)
  {
    LoadingSucceeds(name, files, SecretPaths(value));
    forall directory | Loaded(name, files, SecretPaths(value), directory)
      ensures Means(name, files, directory, value)
    {
      PipelineMeans(name, files, SecretPaths(value), directory, value);
    }
  }

  /** The checks leave a literal `_credential` key only values that resolving rejects. */
  lemma ReservedKeyFails(name: Naming, directory: map<string, string>, fields: Object)
    requires "_secret" !in fields && "_credential" in fields && Runtime(name, Obj(fields)).Ok?
    requires fields["_credential"] == Str("") || IsSecret(fields["_credential"])
    ensures Resolve(directory, Runtime(name, Obj(fields)).value).Err?
    ensures Reads(Runtime(name, Obj(fields)).value) == {}
  {
    var reference := Runtime(name, Obj(fields)).value.fields["_credential"];
    assert reference == Runtime(name, fields["_credential"]).value;
  }

  /** Every credential that the run opens was in the list that the unit loads. */
  lemma {:induction false} ReadsAreLoaded(name: Naming, value: Json)
    requires ValidSecrets(value) && Runtime(name, value).Ok?
    ensures forall credential | credential in Reads(Runtime(name, value).value) ::
        exists path | path in SecretPaths(value) :: path.Str? && credential == name(path.s)
    decreases value
  {
    match value
    case Obj(fields) =>
      if "_secret" in fields {
        assert fields["_secret"] in SecretPaths(value);
      } else if "_credential" in fields {
        CredentialIsSensitive();
        ReservedKeyFails(name, map[], fields);
      } else {
        forall key | key in fields { ReadsAreLoaded(name, fields[key]); }
        forall credential | credential in Reads(Runtime(name, value).value)
          ensures exists path | path in SecretPaths(value) :: path.Str? && credential == name(path.s)
        {
          var key :| key in fields && credential in Reads(Runtime(name, fields[key]).value);
          var path :| path in SecretPaths(fields[key]) && path.Str? && credential == name(path.s);
          assert path in SecretPaths(value);
        }
      }
    case Arr(items) =>
      forall i | 0 <= i < |items| { ReadsAreLoaded(name, items[i]); }
      forall credential | credential in Reads(Runtime(name, value).value)
        ensures exists path | path in SecretPaths(value) :: path.Str? && credential == name(path.s)
      {
        var i :| 0 <= i < |items| && credential in Reads(Runtime(name, items[i]).value);
        var path :| path in SecretPaths(items[i]) && path.Str? && credential == name(path.s);
        assert path in SecretPaths(value);
      }
    case _ =>
  }

  /** A reference to a credential, as it is written. */
  ghost predicate IsReference(name: Naming, value: Json) {
    exists path: string :: value == Obj(map["_credential" := Str(name(path))])
  }

  /** At every depth, what stands at a key that spells a secret is empty or a reference. */
  ghost predicate Concealed(name: Naming, value: Json)
    decreases value
  {
    IsReference(name, value) || match value
      case Obj(fields) =>
        forall key | key in fields ::
          && (SpellsSecret(key) ==> fields[key] == Str("") || IsReference(name, fields[key]))
          && Concealed(name, fields[key])
      case Arr(items) => forall i | 0 <= i < |items| :: Concealed(name, items[i])
      case _ => true
  }

  /** The configuration file, which anyone may read, shows no literal at a sensitive key. */
  lemma {:induction false} RuntimeConceals(name: Naming, value: Json)
    requires ValidSecrets(value) && Runtime(name, value).Ok?
    ensures Concealed(name, Runtime(name, value).value)
    decreases value
  {
    match value
    case Obj(fields) =>
      if "_secret" in fields {
        assert IsReference(name, Runtime(name, value).value);
      } else {
        forall key | key in fields
          ensures Concealed(name, Runtime(name, fields[key]).value)
          ensures SpellsSecret(key) ==>
              fields[key] == Str("") || IsReference(name, Runtime(name, fields[key]).value)
        {
          RuntimeConceals(name, fields[key]);
          SensitiveMeans(key);
          WrittenReference(name, fields[key]);
        }
      }
    case Arr(items) =>
      forall i | 0 <= i < |items| { RuntimeConceals(name, items[i]); }
    case _ =>
  }

  lemma WrittenReference(name: Naming, value: Json)
    requires Runtime(name, value).Ok?
    ensures IsSecret(value) ==> IsReference(name, Runtime(name, value).value)
  {
    if IsSecret(value) {
      assert Runtime(name, value).value == Obj(map["_credential" := Str(name(value.fields["_secret"].s))]);
    }
  }

  // ---------------------------------------------------------------- what is accepted

  /** The part stands somewhere in the value, but not inside a reference. */
  predicate Inside(part: Json, value: Json)
    decreases value
  {
    part == value || match value
      case Obj(fields) => "_secret" !in fields && exists key | key in fields :: Inside(part, fields[key])
      case Arr(items) => exists i | 0 <= i < |items| :: Inside(part, items[i])
      case _ => false
  }

  /** A reference with anything beside it, or a literal at a key that spells a secret. */
  predicate Refused(part: Json) {
    part.Obj? &&
    if "_secret" in part.fields then exists key | key in part.fields :: key != "_secret"
    else exists key | key in part.fields ::
      && SpellsSecret(key) && part.fields[key] != Str("")
      && !(part.fields[key].Obj? && "_secret" in part.fields[key].fields)
  }

  /** A definition is accepted just when no part of it is refused. */
  lemma {:induction false} AcceptedMeans(value: Json)
    ensures ValidSecrets(value) <==> forall part | Inside(part, value) :: !Refused(part)
    decreases value
  {
    match value
    case Obj(fields) =>
      forall key | key in fields
        ensures SensitiveKey(key) <==> SpellsSecret(key)
        ensures ValidSecrets(fields[key]) <==> forall part | Inside(part, fields[key]) :: !Refused(part)
      {
        SensitiveMeans(key);
        AcceptedMeans(fields[key]);
      }
      AcceptedObject(fields);
    case Arr(items) =>
      forall i | 0 <= i < |items| {
        AcceptedMeans(items[i]);
      }
      if ValidSecrets(value) {
        forall part | Inside(part, value)
          ensures !Refused(part)
        {
          assert part != value ==> exists i | 0 <= i < |items| :: Inside(part, items[i]);
        }
      }
    case _ =>
  }

  lemma AcceptedObject(fields: Object)
    requires forall key | key in fields ::
        && (SensitiveKey(key) <==> SpellsSecret(key))
        && (ValidSecrets(fields[key]) <==> forall part | Inside(part, fields[key]) :: !Refused(part))
    ensures ValidSecrets(Obj(fields)) <==> forall part | Inside(part, Obj(fields)) :: !Refused(part)
  {
    var value := Obj(fields);
    if "_secret" in fields {
      assert fields.Keys == {"_secret"} <==> forall key | key in fields :: key == "_secret";
      assert Inside(value, value);
    } else {
      assert Inside(value, value);
      if ValidSecrets(value) {
        assert !Refused(value);
        forall part | Inside(part, value)
          ensures !Refused(part)
        {
          assert part != value ==> exists key | key in fields :: Inside(part, fields[key]);
        }
      }
      if forall part | Inside(part, value) :: !Refused(part) {
        forall key | key in fields
          ensures (SensitiveKey(key) ==> fields[key] == Str("") || IsSecret(fields[key])) && ValidSecrets(fields[key])
        {
          assert !Refused(value);
          forall part | Inside(part, fields[key])
            ensures !Refused(part)
          {
            assert Inside(part, value);
          }
        }
      }
    }
  }
}
