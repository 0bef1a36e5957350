/**
 * Installing a fragment of credentials into NZBGet's configuration file: declared keys are replaced, every other line
 * stays as it is and where it is among the others.
 */
module CredentialFile {
  import opened JsonValues

  // ---------------------------------------------------------------- text and lines

  /** The lines of a text; a final line break only ends the last line. */
  function Lines(text: string): (lines: seq<string>)
    ensures text != "" ==> lines != []
  {
    if text == "" then []
    else if text[0] == '\n' then [""] + Lines(text[1..])
    else if |text| == 1 then [text]
    else
      var rest := Lines(text[1..]);
      [[text[0]] + rest[0]] + rest[1..]
  }

  /** A text with a line break after every line. */
  function Text(lines: seq<string>): string {
    if lines == [] then "" else lines[0] + "\n" + Text(lines[1..])
  }

  predicate Clean(lines: seq<string>) {
    forall i | 0 <= i < |lines| :: '\n' !in lines[i]
  }

  lemma {:induction false} FirstLine(line: string, rest: string)
    requires '\n' !in line
    ensures Lines(line + "\n" + rest) == [line] + Lines(rest)
  {
    if line == "" {
      assert "" + "\n" + rest == "\n" + rest;
      assert ("\n" + rest)[1..] == rest;
    } else {
      var text := line + "\n" + rest;
      assert text[1..] == line[1..] + "\n" + rest;
      FirstLine(line[1..], rest);
      assert [line[0]] + line[1..] == line;
    }
  }

  /** What is written is read back line by line. */
  lemma {:induction false} LinesOfText(lines: seq<string>)
    requires Clean(lines)
    ensures Lines(Text(lines)) == lines
  {
    if lines != [] {
      LinesOfText(lines[1..]);
      FirstLine(lines[0], Text(lines[1..]));
    }
  }

  lemma {:induction false} LinesClean(text: string)
    ensures Clean(Lines(text))
  {
    if text != "" {
      LinesClean(text[1..]);
    }
  }

  // ---------------------------------------------------------------- settings

  datatype Setting = Setting(key: string, value: string)

  /** The part of a line before its first equals sign. */
  function KeyOf(line: string): (key: string)
    ensures key <= line && '=' !in key && (|key| < |line| ==> line[|key|] == '=')
  {
    if line == "" || line[0] == '=' then "" else [line[0]] + KeyOf(line[1..])
  }

  function Render(s: Setting): string {
    s.key + "=" + s.value
  }

  lemma {:induction false} KeyOfJoined(key: string, value: string)
    requires '=' !in key
    ensures KeyOf(key + "=" + value) == key
  {
    if key != "" {
      assert (key + "=" + value)[1..] == key[1..] + "=" + value;
      KeyOfJoined(key[1..], value);
    }
  }

  predicate Blank(line: string) {
    forall i | 0 <= i < |line| :: line[i] in {' ', '\t', '\r'}
  }

  /** Empty lines and comments, with blanks before them. */
  predicate Skipped(line: string) {
    Blank(line) || exists i | 0 <= i < |line| :: Blank(line[..i]) && line[i] == '#'
  }

  predicate Digit(c: char) {
    '0' <= c <= '9'
  }

  predicate ServerKey(key: string) {
    exists n | 7 <= n <= |key| ::
      key[..6] == "Server" && '1' <= key[6] <= '9' && (forall i | 7 <= i < n :: Digit(key[i]))
          && key[n..] in {".Username", ".Password"}
  }

  const NAMES: set<string> := {
    "ControlUsername", "ControlPassword", "RestrictedUsername", "RestrictedPassword", "AddUsername", "AddPassword"
  }

  predicate CredentialKey(key: string) {
    key in NAMES || ServerKey(key)
  }

  lemma CredentialKeysPlain(key: string)
    requires CredentialKey(key)
    ensures '=' !in key
  {
    if key !in NAMES {
      ServerKeysPlain(key);
    }
  }

  lemma ServerKeysPlain(key: string)
    requires ServerKey(key)
    ensures '=' !in key
  {
    var n :| 7 <= n <= |key| && key[..6] == "Server" && '1' <= key[6] <= '9' && (forall i | 7 <= i < n :: Digit(key[i]))
        && key[n..] in {".Username", ".Password"};
    forall i | 0 <= i < |key|
      ensures key[i] != '='
    {
      if i < 6 {
        assert key[i] == key[..6][i];
      } else if n <= i {
        assert key[i] == key[n..][i - n];
      }
    }
  }

  function KeysOf(settings: seq<Setting>): set<string> {
    set i | 0 <= i < |settings| :: settings[i].key
  }

  /** One line of the fragment. */
  function ReadLine(settings: seq<Setting>, line: string): Result<seq<Setting>> {
    if Skipped(line) then Ok(settings)
    else if |KeyOf(line)| == |line| || !CredentialKey(KeyOf(line)) then Err
    else
      var value := line[|KeyOf(line)| + 1..];
      if KeyOf(line) in KeysOf(settings) || value == "" || '\0' in value then Err
      else Ok(settings + [Setting(KeyOf(line), value)])
  }

  function ReadLines(lines: seq<string>): Result<seq<Setting>> {
    if lines == [] then Ok([])
    else
      var before :- ReadLines(lines[..|lines| - 1]);
      ReadLine(before, lines[|lines| - 1])
  }

  /** The settings of a fragment; without a control password it is refused. */
  function Parse(fragment: string): Result<seq<Setting>> {
    var settings :- ReadLines(Lines(fragment));
    if "ControlPassword" in KeysOf(settings) then Ok(settings) else Err
  }

  method ParseFragment(fragment: string) returns (settings: Result<seq<Setting>>)
    ensures settings == Parse(fragment)
  {
    var lines := Lines(fragment);
    var read: seq<Setting> := [];
    for n := 0 to |lines|
      invariant ReadLines(lines[..n]) == Ok(read)
    {
      assert lines[..n + 1][..n] == lines[..n];
      var next := ReadLine(read, lines[n]);
      if next.Err? {
        StaysRefused(lines, n + 1);
        return Err;
      }
      read := next.value;
    }
    assert lines[..|lines|] == lines;
    settings := if "ControlPassword" in KeysOf(read) then Ok(read) else Err;
  }

  /** A refused line refuses the fragment. */
  lemma {:induction false} StaysRefused(lines: seq<string>, n: nat)
    requires n <= |lines| && ReadLines(lines[..n]).Err?
    ensures ReadLines(lines).Err?
  {
    if n == |lines| {
      assert lines[..n] == lines;
    } else {
      assert lines[..|lines| - 1][..n] == lines[..n];
      StaysRefused(lines[..|lines| - 1], n);
    }
  }

  predicate Proper(settings: seq<Setting>) {
    && (forall i | 0 <= i < |settings| :: CredentialKey(settings[i].key) && settings[i].value != "")
    && (forall i, j | 0 <= i < j < |settings| :: settings[i].key != settings[j].key)
  }

  lemma RenderedLine(line: string)
    requires |KeyOf(line)| < |line|
    ensures Render(Setting(KeyOf(line), line[|KeyOf(line)| + 1..])) == line
  {
    assert line == KeyOf(line) + "=" + line[|KeyOf(line)| + 1..];
  }

  lemma ProperMore(settings: seq<Setting>, line: string)
    requires Proper(settings) && ReadLine(settings, line).Ok? && !Skipped(line)
    ensures
      var more := ReadLine(settings, line).value;
      Proper(more) && more[..|more| - 1] == settings && Render(more[|more| - 1]) == line
  {
    var s := Setting(KeyOf(line), line[|KeyOf(line)| + 1..]);
    ProperAppend(settings, s);
    assert (settings + [s])[..|settings|] == settings;
    RenderedLine(line);
  }

  lemma ProperAppend(settings: seq<Setting>, s: Setting)
    requires Proper(settings) && CredentialKey(s.key) && s.value != "" && s.key !in KeysOf(settings)
    ensures Proper(settings + [s])
  {
    assert forall i | 0 <= i < |settings| :: settings[i].key in KeysOf(settings);
  }

  /** The settings are exactly the lines that are neither empty nor comments, in order, with distinct known keys. */
  lemma {:induction false} ReadLinesMean(lines: seq<string>)
    ensures ReadLines(lines).Ok? ==>
      Proper(ReadLines(lines).value) && Rendered(ReadLines(lines).value) == Meaningful(lines)
  {
    if lines != [] && ReadLines(lines).Ok? {
      var last := |lines| - 1;
      ReadLinesMean(lines[..last]);
      if !Skipped(lines[last]) {
        ProperMore(ReadLines(lines[..last]).value, lines[last]);
      }
    }
  }

  // ---------------------------------------------------------------- what is accepted

  /** Nothing but blanks, or blanks and then a comment. */
  predicate Idle(line: string) {
    || line == "" || line[0] == '#'
    || ((line[0] == ' ' || line[0] == '\t' || line[0] == '\r') && Idle(line[1..]))
  }

  lemma {:induction false} SkippedMeans(line: string)
    ensures Skipped(line) <==> Idle(line)
  {
    if line != "" {
      SkippedMeans(line[1..]);
      if line[0] in {' ', '\t', '\r'} {
        BlankMore(line);
        if Skipped(line[1..]) && !Blank(line[1..]) {
          var i :| 0 <= i < |line[1..]| && Blank(line[1..][..i]) && line[1..][i] == '#';
          assert line[..i + 1][1..] == line[1..][..i];
          BlankMore(line[..i + 1]);
          assert Blank(line[..i + 1]) && line[i + 1] == '#';
        }
        if Skipped(line) && !Blank(line) {
          var i :| 0 <= i < |line| && Blank(line[..i]) && line[i] == '#';
          assert line[..i][1..] == line[1..][..i - 1];
          BlankMore(line[..i]);
          assert Blank(line[1..][..i - 1]) && line[1..][i - 1] == '#';
        }
      } else {
        forall i | 0 < i < |line|
          ensures !Blank(line[..i])
        {
          assert line[..i][0] == line[0];
        }
        assert Blank(line[..0]);
      }
    }
  }

  lemma BlankMore(line: string)
    requires line != ""
    ensures Blank(line) <==> line[0] in {' ', '\t', '\r'} && Blank(line[1..])
  {
    assert forall i | 1 <= i < |line| :: line[i] == line[1..][i - 1];
  }

  /** The keys of the servers: a number without leading zeros between their two parts. */
  predicate NumberedKey(key: string, number: string) {
    && number != "" && number[0] != '0' && (forall i | 0 <= i < |number| :: '0' <= number[i] <= '9')
    && (key == "Server" + number + ".Username" || key == "Server" + number + ".Password")
  }

  ghost predicate KnownKey(key: string) {
    || key == "ControlUsername" || key == "ControlPassword" || key == "RestrictedUsername"
    || key == "RestrictedPassword" || key == "AddUsername" || key == "AddPassword"
    || exists number :: NumberedKey(key, number)
  }

  lemma ServerKeyNumber(key: string) returns (number: string)
    requires ServerKey(key)
    ensures NumberedKey(key, number)
  {
    var n :| 7 <= n <= |key| && key[..6] == "Server" && '1' <= key[6] <= '9' && (forall i | 7 <= i < n :: Digit(key[i]))
      && key[n..] in {".Username", ".Password"};
    number := key[6..n];
    InThree(key, 6, n);
  }

  lemma InThree(text: string, i: nat, j: nat)
    requires i <= j <= |text|
    ensures text == text[..i] + text[i..j] + text[j..]
  {
  }

  lemma NumberServerKey(key: string, number: string)
    requires NumberedKey(key, number)
    ensures ServerKey(key)
  {
    var n := 6 + |number|;
    var field := if key == "Server" + number + ".Username" then ".Username" else ".Password";
    assert key == "Server" + number + field;
    assert key[..6] == "Server" && key[n..] == field;
    forall i | 6 <= i < n
      ensures key[i] == number[i - 6]
    {
    }
  }

  lemma ServerKeyMeans(key: string)
    ensures ServerKey(key) <==> exists number :: NumberedKey(key, number)
  {
    if ServerKey(key) {
      var number := ServerKeyNumber(key);
    }
    forall number | NumberedKey(key, number)
      ensures ServerKey(key)
    {
      NumberServerKey(key, number);
    }
  }

  /** The line gives the known key a value. */
  ghost predicate Sets(line: string, key: string) {
    && KnownKey(key) && '=' !in key && |key| + 1 < |line| && line[..|key|] == key && line[|key|] == '='
    && '\0' !in line[|key| + 1..]
  }

  lemma {:induction false} KeyOfMeans(line: string, key: string)
    requires '=' !in key && |key| < |line| && line[..|key|] == key && line[|key|] == '='
    ensures KeyOf(line) == key
  {
    assert line == key + "=" + line[|key| + 1..];
    KeyOfJoined(key, line[|key| + 1..]);
  }

  lemma SetsMeans(line: string, key: string)
    requires Sets(line, key)
    ensures KeyOf(line) == key && !Skipped(line)
  {
    KeyOfMeans(line, key);
    SkippedMeans(line);
    assert key != "" && line[0] == key[0];
    if number :| NumberedKey(key, number) {
      assert key[0] == 'S';
    }
  }

  /** One line of the fragment is read if it sets nothing, or a key that was not set before. */
  lemma LineMeans(settings: seq<Setting>, line: string)
    ensures ReadLine(settings, line).Ok? <==>
        Idle(line) || (Sets(line, KeyOf(line)) && KeyOf(line) !in KeysOf(settings))
    ensures ReadLine(settings, line).Ok? ==>
        KeysOf(ReadLine(settings, line).value) == KeysOf(settings) + if Idle(line) then {} else {KeyOf(line)}
  {
    SkippedMeans(line);
    ServerKeyMeans(KeyOf(line));
    if Sets(line, KeyOf(line)) {
      SetsMeans(line, KeyOf(line));
    }
    if ReadLine(settings, line).Ok? && !Idle(line) {
      KeysMore(settings, Setting(KeyOf(line), line[|KeyOf(line)| + 1..]));
    }
  }

  lemma KeysMore(settings: seq<Setting>, s: Setting)
    ensures KeysOf(settings + [s]) == KeysOf(settings) + {s.key}
  {
    assert (settings + [s])[|settings|] == s;
    assert forall i | 0 <= i < |settings| :: (settings + [s])[i] == settings[i];
  }

  /** Every line is idle or sets a known key, and no key is set twice. */
  ghost predicate Acceptable(lines: seq<string>) {
    && (forall i | 0 <= i < |lines| :: Idle(lines[i]) || exists key :: Sets(lines[i], key))
    && (forall i, j, key | 0 <= i < j < |lines| :: !(Sets(lines[i], key) && Sets(lines[j], key)))
  }

  lemma AcceptableMore(lines: seq<string>)
    requires lines != []
    ensures
      var last := |lines| - 1;
      Acceptable(lines) <==>
        && Acceptable(lines[..last])
        && (Idle(lines[last]) || exists key :: Sets(lines[last], key))
        && (forall i, key | 0 <= i < last :: !(Sets(lines[i], key) && Sets(lines[last], key)))
  {
    var last := |lines| - 1;
    assert forall i | 0 <= i < last :: lines[..last][i] == lines[i];
  }

  ghost predicate SetBy(lines: seq<string>, key: string) {
    exists i | 0 <= i < |lines| :: Sets(lines[i], key)
  }

  lemma SetByMore(lines: seq<string>, key: string)
    requires lines != []
    ensures SetBy(lines, key) <==> SetBy(lines[..|lines| - 1], key) || Sets(lines[|lines| - 1], key)
  {
    var last := |lines| - 1;
    assert forall i | 0 <= i < last :: lines[..last][i] == lines[i];
  }

  /** One more line sets what it sets. */
  lemma KeysNext(lines: seq<string>, before: seq<Setting>)
    requires lines != [] && forall key :: key in KeysOf(before) <==> SetBy(lines[..|lines| - 1], key)
    requires ReadLine(before, lines[|lines| - 1]).Ok?
    ensures forall key :: key in KeysOf(ReadLine(before, lines[|lines| - 1]).value) <==> SetBy(lines, key)
  {
    var line := lines[|lines| - 1];
    LineMeans(before, line);
    SetsOnly(line);
    forall key
      ensures key in KeysOf(ReadLine(before, line).value) <==> SetBy(lines, key)
    {
      SetByMore(lines, key);
    }
  }

  /** One more line is accepted if it sets nothing that is set already. */
  lemma AcceptNext(lines: seq<string>, before: seq<Setting>)
    requires lines != [] && Acceptable(lines[..|lines| - 1])
    requires forall key :: key in KeysOf(before) <==> SetBy(lines[..|lines| - 1], key)
    ensures ReadLine(before, lines[|lines| - 1]).Ok? <==> Acceptable(lines)
  {
    var last := |lines| - 1;
    LineMeans(before, lines[last]);
    SetsOnly(lines[last]);
    AcceptableMore(lines);
    assert forall i | 0 <= i < last :: lines[..last][i] == lines[i];
    if ReadLine(before, lines[last]).Ok? {
      forall i, key | 0 <= i < last
        ensures !(Sets(lines[i], key) && Sets(lines[last], key))
      {
        if Sets(lines[i], key) {
          assert Sets(lines[..last][i], key) && SetBy(lines[..last], key);
        }
      }
    }
  }

  lemma {:induction false} ReadLinesAccept(lines: seq<string>)
    ensures ReadLines(lines).Ok? <==> Acceptable(lines)
    ensures ReadLines(lines).Ok? ==> forall key :: key in KeysOf(ReadLines(lines).value) <==> SetBy(lines, key)
  {
    if lines != [] {
      var before := ReadLines(lines[..|lines| - 1]);
      ReadLinesAccept(lines[..|lines| - 1]);
      AcceptableMore(lines);
      if before.Ok? {
        AcceptNext(lines, before.value);
        if ReadLines(lines).Ok? {
          KeysNext(lines, before.value);
        }
      }
    }
  }

  lemma SetsOnly(line: string)
    ensures forall key | Sets(line, key) :: key == KeyOf(line) && !Idle(line)
  {
    forall key | Sets(line, key)
      ensures key == KeyOf(line) && !Idle(line)
    {
      SetsMeans(line, key);
      SkippedMeans(line);
    }
  }

  /** A fragment is accepted just when its lines are and one of them sets the control password. */
  lemma AcceptedMeans(fragment: string)
    ensures Parse(fragment).Ok? <==>
      && Acceptable(Lines(fragment))
      && exists i | 0 <= i < |Lines(fragment)| :: Sets(Lines(fragment)[i], "ControlPassword")
  {
    ReadLinesAccept(Lines(fragment));
  }

  function Meaningful(lines: seq<string>): seq<string> {
    if lines == [] then []
    else Meaningful(lines[..|lines| - 1]) + if Skipped(lines[|lines| - 1]) then [] else [lines[|lines| - 1]]
  }

  function Rendered(settings: seq<Setting>): (lines: seq<string>)
    ensures |lines| == |settings| && forall i | 0 <= i < |settings| :: lines[i] == Render(settings[i])
  {
    if settings == [] then [] else Rendered(settings[..|settings| - 1]) + [Render(settings[|settings| - 1])]
  }

  // ---------------------------------------------------------------- the file

  /** The lines whose key is not replaced. */
  function Retained(lines: seq<string>, keys: set<string>): seq<string> {
    if lines == [] then []
    else Retained(lines[..|lines| - 1], keys) + if KeyOf(lines[|lines| - 1]) in keys then [] else [lines[|lines| - 1]]
  }

  function Install(lines: seq<string>, settings: seq<Setting>): seq<string> {
    Retained(lines, KeysOf(settings)) + Rendered(settings)
  }

  /** The whole installation; a refused fragment leaves the file as it is. */
  method InstallFragment(fragment: string, target: string) returns (ok: bool, written: string)
    ensures ok <==> Parse(fragment).Ok?
    ensures written == if ok then Text(Install(Lines(target), Parse(fragment).value)) else target
  {
    var settings := ParseFragment(fragment);
    if settings.Err? {
      return false, target;
    }
    var lines := Lines(target);
    var retained: seq<string> := [];
    for n := 0 to |lines|
      invariant retained == Retained(lines[..n], KeysOf(settings.value))
    {
      assert lines[..n + 1][..n] == lines[..n];
      if KeyOf(lines[n]) !in KeysOf(settings.value) {
        retained := retained + [lines[n]];
      }
    }
    assert lines[..|lines|] == lines;
    for n := 0 to |settings.value|
      invariant retained == Retained(lines, KeysOf(settings.value)) + Rendered(settings.value[..n])
    {
      assert settings.value[..n + 1][..n] == settings.value[..n];
      retained := retained + [Render(settings.value[n])];
    }
    assert settings.value[..|settings.value|] == settings.value;
    return true, Text(retained);
  }

  lemma {:induction false} RetainedAppend(a: seq<string>, b: seq<string>, keys: set<string>)
    ensures Retained(a + b, keys) == Retained(a, keys) + Retained(b, keys)
  {
    if b == [] {
      assert a + b == a;
    } else {
      var last := |b| - 1;
      assert (a + b)[..|a + b| - 1] == a + b[..last];
      RetainedAppend(a, b[..last], keys);
    }
  }

  lemma {:induction false} RetainedTwice(lines: seq<string>, fewer: set<string>, more: set<string>)
    requires fewer <= more
    ensures Retained(Retained(lines, fewer), more) == Retained(lines, more)
  {
    if lines != [] {
      var last := |lines| - 1;
      RetainedTwice(lines[..last], fewer, more);
      if KeyOf(lines[last]) !in fewer {
        RetainedAppend(Retained(lines[..last], fewer), [lines[last]], more);
        assert [lines[last]][..0] == [];
        assert Retained([lines[last]], more) == if KeyOf(lines[last]) in more then [] else [lines[last]];
      } else {
        assert Retained(lines, fewer) == Retained(lines[..last], fewer);
      }
    }
  }

  lemma RenderedKey(s: Setting)
    requires CredentialKey(s.key)
    ensures KeyOf(Render(s)) == s.key
  {
    CredentialKeysPlain(s.key);
    KeyOfJoined(s.key, s.value);
  }

  lemma ProperPrefix(settings: seq<Setting>, keys: set<string>)
    requires settings != [] && Proper(settings) && KeysOf(settings) <= keys
    ensures
      var last := |settings| - 1;
      && Proper(settings[..last]) && KeysOf(settings[..last]) <= keys
      && CredentialKey(settings[last].key) && settings[last].key in keys
  {
    var last := |settings| - 1;
    assert forall i | 0 <= i < last :: settings[..last][i] == settings[i];
    assert KeysOf(settings[..last]) <= KeysOf(settings);
    assert settings[last].key in KeysOf(settings);
  }

  lemma RenderedGrows(settings: seq<Setting>)
    requires settings != []
    ensures Rendered(settings) == Rendered(settings[..|settings| - 1]) + [Render(settings[|settings| - 1])]
  {
  }

  lemma RetainedDrops(lines: seq<string>, line: string, keys: set<string>)
    requires KeyOf(line) in keys
    ensures Retained(lines + [line], keys) == Retained(lines, keys)
  {
    assert (lines + [line])[..|lines|] == lines;
  }

  /** Rendered settings are replaced by an installation of their keys. */
  lemma {:induction false} RenderedReplaced(settings: seq<Setting>, keys: set<string>)
    requires Proper(settings) && KeysOf(settings) <= keys
    ensures Retained(Rendered(settings), keys) == []
  {
    if settings != [] {
      var last := |settings| - 1;
      ProperPrefix(settings, keys);
      RenderedReplaced(settings[..last], keys);
      RenderedKey(settings[last]);
      RenderedGrows(settings);
      RetainedDrops(Rendered(settings[..last]), Render(settings[last]), keys);
    }
  }

  /** Every other line is retained, in its original order. */
  lemma OthersRetained(lines: seq<string>, settings: seq<Setting>)
    requires Proper(settings)
    ensures Retained(Install(lines, settings), KeysOf(settings)) == Retained(lines, KeysOf(settings))
  {
    var keys := KeysOf(settings);
    RetainedAppend(Retained(lines, keys), Rendered(settings), keys);
    RetainedTwice(lines, keys, keys);
    RenderedReplaced(settings, keys);
  }

  lemma {:induction false} RetainedMember(lines: seq<string>, keys: set<string>, line: string)
    ensures line in Retained(lines, keys) <==> line in lines && KeyOf(line) !in keys
  {
    if lines != [] {
      var last := |lines| - 1;
      RetainedMember(lines[..last], keys, line);
      assert lines == lines[..last] + [lines[last]];
    }
  }

  /** Each declared key occurs exactly once, at its declared value. */
  lemma ReadBack(lines: seq<string>, settings: seq<Setting>, i: nat, j: nat)
    requires Proper(settings) && i < |settings| && j < |Install(lines, settings)|
    ensures KeyOf(Install(lines, settings)[j]) == settings[i].key <==> j == |Retained(lines, KeysOf(settings))| + i
    ensures KeyOf(Install(lines, settings)[j]) == settings[i].key ==> Install(lines, settings)[j] == Render(settings[i])
  {
    var retained := Retained(lines, KeysOf(settings));
    assert settings[i].key in KeysOf(settings);
    if j < |retained| {
      RetainedMember(lines, KeysOf(settings), retained[j]);
    } else {
      RenderedKey(settings[j - |retained|]);
      RenderedKey(settings[i]);
    }
  }

  /** An installation that covers the keys of an earlier one leaves no trace of it; a repeated one changes nothing. */
  lemma Absorbs(lines: seq<string>, earlier: seq<Setting>, later: seq<Setting>)
    requires Proper(earlier) && Proper(later) && KeysOf(earlier) <= KeysOf(later)
    ensures Install(Install(lines, earlier), later) == Install(lines, later)
  {
    var kept := Retained(lines, KeysOf(earlier));
    assert Retained(kept + Rendered(earlier), KeysOf(later)) == Retained(lines, KeysOf(later)) by {
      RetainedAppend(kept, Rendered(earlier), KeysOf(later));
      RetainedTwice(lines, KeysOf(earlier), KeysOf(later));
      RenderedReplaced(earlier, KeysOf(later));
    }
  }

  lemma {:induction false} RetainedClean(lines: seq<string>, keys: set<string>)
    requires Clean(lines)
    ensures Clean(Retained(lines, keys))
  {
    if lines != [] {
      RetainedClean(lines[..|lines| - 1], keys);
    }
  }

  lemma {:induction false} MeaningfulClean(lines: seq<string>)
    requires Clean(lines)
    ensures Clean(Meaningful(lines))
  {
    if lines != [] {
      MeaningfulClean(lines[..|lines| - 1]);
    }
  }

  /** What a later covering fragment writes does not depend on an earlier one. */
  lemma AbsorbedText(earlier: string, later: string, target: string)
    requires Parse(earlier).Ok? && Parse(later).Ok?
    ensures
      var e, l := Parse(earlier).value, Parse(later).value;
      KeysOf(e) <= KeysOf(l) ==> Install(Lines(Text(Install(Lines(target), e))), l) == Install(Lines(target), l)
  {
    var e, l := Parse(earlier).value, Parse(later).value;
    ReadLinesMean(Lines(earlier));
    ReadLinesMean(Lines(later));
    LinesClean(target);
    LinesClean(earlier);
    MeaningfulClean(Lines(earlier));
    RetainedClean(Lines(target), KeysOf(e));
    LinesOfText(Install(Lines(target), e));
    if KeysOf(e) <= KeysOf(l) {
      Absorbs(Lines(target), e, l);
    }
  }

  /**
   * The same on the files themselves: both installations succeed if and only if both fragments are accepted, and what
   * a later covering one writes does not depend on the earlier one.
   */
  method InstallTwice(earlier: string, later: string, target: string) returns (ok: bool, once: string, twice: string)
    ensures ok <==> Parse(earlier).Ok? && Parse(later).Ok?
    ensures ok ==> once == Text(Install(Lines(target), Parse(later).value))
    ensures ok && KeysOf(Parse(earlier).value) <= KeysOf(Parse(later).value) ==> once == twice
    ensures ok && earlier == later ==> once == twice
  {
    var first, middle := InstallFragment(earlier, target);
    var second;
    second, once := InstallFragment(later, target);
    var third;
    third, twice := InstallFragment(later, middle);
    ok := first && second && third;
    if ok {
      AbsorbedText(earlier, later, target);
    }
  }
}
