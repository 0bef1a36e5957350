/** The download clients of an autobrr declaration: created, updated when they differ, and fingerprinted. */
module AutobrrClients {
  import opened AutobrrMatch
  import opened AutobrrServer
  import opened JsonValues
  import opened Objects

  datatype ClientDecl = ClientDecl(name: string, values: Object)

  /** The fingerprints of all clients, by id. */
  type Ledgers = map<Json, Ledger>

  function LedgerOf(ledgers: Ledgers, id: Json): Ledger {
    if id in ledgers then ledgers[id] else map[]
  }

  /** What validation demands of a client, together with keys without dots and secrets that are no marker. */
  predicate ValidClient(d: ClientDecl) {
    && ("enabled" in d.values ==> !d.values["enabled"].Obj?)
    && "type" in d.values && d.values["type"].Str? && "name" !in d.values && "id" !in d.values
    && Undotted(d.values) && NoMarker(d.values)
  }

  /** The client does not exist, or there is one that the declaration can be merged into. */
  predicate ClientReady(clients: seq<Object>, d: ClientDecl)
    requires ValidClient(d)
  {
    var found := Search(clients, ByName(d.name));
    && !found.Many?
    && (found.One? ==>
        && Get(clients[found.index], "type") == d.values["type"]
        && Compatible(Redact(clients[found.index]), d.values))
  }

  /** There is exactly one client of the name, it has the declared type and matches the declaration. */
  predicate ClientSettled(hash: Hash, clients: seq<Object>, ledgers: Ledgers, d: ClientDecl)
    requires ValidClient(d)
  {
    var found := Search(clients, ByName(d.name));
    && found.One?
    && Get(clients[found.index], "type") == d.values["type"]
    && Matches(hash, LedgerOf(ledgers, Id(clients[found.index])), Redact(clients[found.index]), d.values, "")
  }

  /** Of each declared secret the ledger knows what the server holds, unless the server holds the declared one. */
  predicate ClientInStep(hash: Hash, clients: seq<Object>, ledgers: Ledgers, d: ClientDecl) {
    var found := Search(clients, ByName(d.name));
    found.One? ==>
      InStep(hash, LedgerOf(ledgers, Id(clients[found.index])), clients[found.index], d.values, "")
  }

  /** There is exactly one client of the name, and it holds the declared secrets. */
  predicate ClientHolds(hash: Hash, clients: seq<Object>, d: ClientDecl) {
    var found := Search(clients, ByName(d.name));
    found.One? && SecretsHeld(hash, clients[found.index], d.values)
  }

  /** A settled client holds the declared secrets if and only if the ledger is in step with the server. */
  lemma SettledSecrets(hash: Hash, clients: seq<Object>, ledgers: Ledgers, d: ClientDecl)
    requires ValidClient(d) && Injective(hash) && ClientSettled(hash, clients, ledgers, d)
    ensures ClientHolds(hash, clients, d) <==> ClientInStep(hash, clients, ledgers, d)
  {
    var i := Search(clients, ByName(d.name)).index;
    MatchedSecrets(hash, LedgerOf(ledgers, Id(clients[i])), clients[i], d.values, "");
  }

  /** There is exactly one client of the name, and it holds every declared value. */
  predicate ClientBears(clients: seq<Object>, d: ClientDecl) {
    var found := Search(clients, ByName(d.name));
    found.One? && Holds(clients[found.index], d.values)
  }

  /** The client of the name, if there is just one, is identical with its fingerprints. */
  predicate ClientLeft(before: seq<Object>, known: Ledgers, after: seq<Object>, ledgers: Ledgers, name: string) {
    var found := Search(after, ByName(name));
    && SameSearch(before, after, ByName(name))
    && (found.One? ==> LedgerOf(ledgers, Id(after[found.index])) == LedgerOf(known, Id(after[found.index])))
  }

  /**
   * What a run may make of a declaration wherever it ends: a client that was settled is left alone, and any other is
   * left alone or has every declared value.
   */
  predicate ClientHandled(hash: Hash, before: seq<Object>, known: Ledgers, after: seq<Object>, ledgers: Ledgers,
        d: ClientDecl)
    requires ValidClient(d)
  {
    || ClientLeft(before, known, after, ledgers, d.name)
    || (!ClientSettled(hash, before, known, d) && ClientBears(after, d))
  }

  /** What a finished managed run owes a declaration: a client that was not settled gets every declared value. */
  predicate ClientGiven(hash: Hash, before: seq<Object>, known: Ledgers, after: seq<Object>, d: ClientDecl)
    requires ValidClient(d)
  {
    ClientSettled(hash, before, known, d) || ClientBears(after, d)
  }

  /** What a finished run owes a declaration: in bootstrap mode an existing client is left alone. */
  predicate ClientServed(hash: Hash, bootstrap: bool, before: seq<Object>, known: Ledgers, after: seq<Object>,
        d: ClientDecl)
    requires ValidClient(d)
  {
    || (bootstrap && Search(before, ByName(d.name)).One?)
    || ClientGiven(hash, before, known, after, d)
  }

  /**
   * The exact condition over a run. A client that was settled at the start is left alone, any other gets the whole
   * declaration; so afterwards the client holds the declared secrets if and only if the ledger had not verified them
   * at the start, or was in step with the server then.
   */
  lemma HeldExactly(hash: Hash, before: seq<Object>, known: Ledgers, after: seq<Object>, ledgers: Ledgers,
        d: ClientDecl)
    requires ValidClient(d) && Injective(hash) && ClientGiven(hash, before, known, after, d)
    requires ClientHandled(hash, before, known, after, ledgers, d)
    ensures ClientHolds(hash, after, d) <==>
        !ClientSettled(hash, before, known, d) || ClientInStep(hash, before, known, d)
  {
    if ClientSettled(hash, before, known, d) {
      SettledSecrets(hash, before, known, d);
    } else {
      HoldsSecrets(hash, after[Search(after, ByName(d.name)).index], d.values);
    }
  }

  const CLIENT_LABELS: Object := map["id" := Num(1), "name" := Str("c"), "type" := Str("QBITTORRENT")]

  function WithPassword(password: string): ClientDecl {
    ClientDecl("c", map["type" := Str("QBITTORRENT"), "password" := Str(password)])
  }

  /**
   * How ledger and server part. The ledger knows the first password, and the server took the second, but its answer
   * was lost. If the first is declared again the client counts as settled, so nothing is sent, and the server keeps
   * the second. If the second stays declared, the ledger is in step for it.
   */
  lemma LostAnswer(hash: Hash, first: string, second: string)
    requires Injective(hash) && hash.text(Str(first)) != hash.text(Str(second))
    requires first != "" && second != "" && first != REDACTED && second != REDACTED
    ensures
      var clients := [CLIENT_LABELS["password" := Str(second)]];
      var taken := map["password" := Fingerprint("s", hash.digest("s", hash.text(Str(first))))];
      var ledgers: Ledgers := map[Num(1) := taken];
      && ValidClient(WithPassword(first)) && ValidClient(WithPassword(second))
      && ClientSettled(hash, clients, ledgers, WithPassword(first))
      && !ClientHolds(hash, clients, WithPassword(first)) && !ClientInStep(hash, clients, ledgers, WithPassword(first))
      && ClientInStep(hash, clients, ledgers, WithPassword(second))
  {
    var o := CLIENT_LABELS["password" := Str(second)];
    var clients := [o];
    var taken := map["password" := Fingerprint("s", hash.digest("s", hash.text(Str(first))))];
    var ledgers: Ledgers := map[Num(1) := taken];
    PasswordClient(first);
    PasswordClient(second);
    NameMeans(o, "c");
    SearchMeans(clients, ByName("c"));
    PasswordMatches(hash, taken, o, first);
    assert WithPassword(first).values["password"] == Str(first) && Get(o, "password") == Str(second);
    assert !SecretsHeldAt(hash, Get(o, "password"), "password", Str(first));
    SettledSecrets(hash, clients, ledgers, WithPassword(first));
    HoldingClient(hash, clients, ledgers, WithPassword(second), 0);
  }

  lemma PasswordClient(password: string)
    requires password != REDACTED
    ensures ValidClient(WithPassword(password)) && SecretKey("password") && !SecretKey("type")
  {
    assert Lower("password") == "password" && |Lower("type")| == 4;
    assert NoMarkerAt("password", Str(password)) && NoMarkerAt("type", Str("QBITTORRENT"));
  }

  /** With the fingerprint of the declared password, whatever password the server has is taken for it. */
  lemma PasswordMatches(hash: Hash, taken: Ledger, o: Object, password: string)
    requires "password" in taken && Verifies(hash, taken["password"], Str(password)) && SecretKey("password")
    requires !SecretKey("type") && Get(o, "type") == Str("QBITTORRENT") && "password" in o
    requires o["password"].Str? && Truthy(o["password"])
    ensures Matches(hash, taken, Redact(o), WithPassword(password).values, "")
  {
    var values := WithPassword(password).values;
    assert Redact(o)["password"] == RedactAt("password", o["password"]) && |REDACTED| == 10;
    assert Redact(o)["type"] == RedactAt("type", o["type"]);
    assert "" + "password" == "password";
    forall key | key in values
      ensures MatchesAt(hash, taken, Get(Redact(o), key), key, values[key], "")
    {
    }
  }

  /** A client that holds a declaration is in step for it. */
  lemma HoldingClient(hash: Hash, clients: seq<Object>, ledgers: Ledgers, d: ClientDecl, at: nat)
    requires Search(clients, ByName(d.name)) == One(at) && Holds(clients[at], d.values)
    ensures ClientInStep(hash, clients, ledgers, d)
  {
    HoldsInStep(hash, LedgerOf(ledgers, Id(clients[at])), clients[at], d.values, "");
  }

  /** One client of the name was replaced under its id and type, or one was added. */
  predicate ClientTouched(before: World, after: World, name: string, at: nat) {
    && (after == before ||
        ((Replaced(before.clients, after.clients, at)
            || (Appended(before.clients, after.clients) && at == |before.clients|)) &&
         after == before.(clients := after.clients, nextId := after.nextId) && before.nextId <= after.nextId &&
         at < |after.clients|))
    && (at < |after.clients| ==> Name(after.clients[at]) == Str(name))
    && (at < |before.clients| && after != before ==>
        && Name(before.clients[at]) == Str(name)
        && Id(after.clients[at]) == Id(before.clients[at])
        && Get(after.clients[at], "type") == Get(before.clients[at], "type"))
  }

  /** The labels that the listing shows as they are stored. */
  predicate SameLabels(view: Object, o: Object) {
    Id(view) == Id(o) && Name(view) == Name(o) && Get(view, "type") == Get(o, "type")
  }

  lemma LabelsShown(o: Object)
    requires !Id(o).Obj? && !Name(o).Obj? && !Get(o, "type").Obj?
    ensures SameLabels(Redact(o), o)
  {
    assert |Lower("id")| == 2 && |Lower("name")| == 4 && |Lower("type")| == 4;
  }

  lemma {:induction false} RedactCompatible(o: Object, values: Object)
    requires Compatible(o, values)
    ensures Compatible(Redact(o), values)
    decreases Obj(values)
  {
    forall key | key in values && values[key].Obj?
      ensures CompatibleAt(Redact(o), key, values[key])
    {
      assert CompatibleAt(o, key, values[key]);
      if key in o && values[key].fields != map[] {
        RedactCompatible(o[key].fields, values[key].fields);
      }
    }
  }

  /** Adding the name to a declaration changes nothing else about it. */
  lemma NamedHolds(o: Object, values: Object, name: string)
    requires "name" !in values
    ensures Holds(o, values["name" := Str(name)]) ==> Holds(o, values) && Name(o) == Str(name)
    ensures Compatible(o, values) <==> Compatible(o, values["name" := Str(name)])
    ensures NoMarker(values) ==> NoMarker(values["name" := Str(name)])
  {
    var named := values["name" := Str(name)];
    assert |Lower("name")| == 4;
    if Holds(o, named) {
      assert HoldsAt(o["name"], named["name"]);
      forall key | key in values
        ensures key in o && HoldsAt(o[key], values[key])
      {
        assert key in named && named[key] == values[key];
      }
    }
    if Compatible(o, values) {
      forall key | key in named && named[key].Obj?
        ensures CompatibleAt(o, key, named[key])
      {
        assert key in values;
      }
    }
    if Compatible(o, named) {
      forall key | key in values && values[key].Obj?
        ensures CompatibleAt(o, key, values[key])
      {
        assert key in named && named[key] == values[key];
      }
    }
    if NoMarker(values) {
      forall key | key in named
        ensures NoMarkerAt(key, named[key])
      {
        assert key != "name" ==> key in values && NoMarkerAt(key, values[key]);
      }
    }
  }

  /** The client that an update stores. */
  lemma StoredClient(stored: Object, d: ClientDecl)
    requires ValidClient(d) && Compatible(Redact(stored), d.values)
    requires Id(stored).Num? && Name(stored) == Str(d.name) && Get(stored, "type") == d.values["type"]
    ensures
      var named := d.values["name" := Str(d.name)];
      var sent := Merge(Redact(stored), named);
      var after := Keep(stored, sent);
      && Compatible(Redact(stored), named) && Id(sent) == Id(stored)
      && Holds(after, d.values) && Compatible(Redact(after), d.values) && SameLabels(after, stored)
      && PathsKept(stored, after, d.values)
  {
    var named := d.values["name" := Str(d.name)];
    NamedHolds(Redact(stored), d.values, d.name);
    MergeHolds(Redact(stored), named);
    LabelsShown(stored);
    var sent := Merge(Redact(stored), named);
    KeepHolds(stored, sent, named);
    var after := Keep(stored, sent);
    NamedHolds(after, d.values, d.name);
    HoldsCompatible(after, d.values);
    RedactCompatible(after, d.values);
    assert HoldsAt(after["type"], d.values["type"]);
    assert Id(Redact(stored)) == Id(stored) && Id(sent) == Id(stored);
    assert "id" in sent && |Lower("id")| == 2;
    assert Id(after) == KeepAt(stored, "id", sent["id"]);
    NamedPaths(stored, d);
  }

  /** The name is declared, too, but it is the one that the client has. */
  lemma NamedPaths(stored: Object, d: ClientDecl)
    requires Name(stored) == Str(d.name)
    requires
      var named := d.values["name" := Str(d.name)];
      Compatible(Redact(stored), named) && Name(Keep(stored, Merge(Redact(stored), named))) == Name(stored)
    ensures PathsKept(stored, Keep(stored, Merge(Redact(stored), d.values["name" := Str(d.name)])), d.values)
  {
    var named := d.values["name" := Str(d.name)];
    var after := Keep(stored, Merge(Redact(stored), named));
    forall path | Undeclared(d.values, path)
      ensures At(Obj(after), path) == At(Obj(stored), path)
    {
      if path[0] == "name" {
        assert "name" in after && "name" in stored && after["name"] == stored["name"];
      } else {
        assert Undeclared(named, path);
        UpdateKeeps(stored, named, path);
      }
    }
  }

  /** Besides what is declared, a new client has its id and name, and it is disabled. */
  ghost predicate NewClient(o: Object, d: ClientDecl) {
    forall key | key !in d.values && key !in {"id", "name"} ::
      At(Obj(o), [key]) == if key == "enabled" then Ok(Bool(false)) else Err
  }

  /** The clients that were added have the declared name and are new. */
  ghost predicate NewClients(before: seq<Object>, after: seq<Object>, d: ClientDecl) {
    && |before| <= |after|
    && forall i | |before| <= i < |after| :: Name(after[i]) == Str(d.name) && NewClient(after[i], d)
  }

  const CREATED: Object := map["enabled" := Bool(false)]

  /** The client that a creation stores. */
  lemma CreatedClient(d: ClientDecl, id: Json)
    requires ValidClient(d)
    ensures
      var named := d.values["name" := Str(d.name)];
      var after := Merge(CREATED, named)["id" := id];
      && Compatible(CREATED, named)
      && Holds(after, d.values) && Compatible(Redact(after), d.values)
      && Id(after) == id && Name(after) == Str(d.name) && Get(after, "type") == d.values["type"]
      && NewClient(after, d)
  {
    var named := d.values["name" := Str(d.name)];
    assert Compatible(CREATED, named) by {
      forall key | key in named && named[key].Obj?
        ensures CompatibleAt(CREATED, key, named[key])
      {
        assert key in d.values && d.values[key] == named[key];
      }
    }
    MergeHolds(CREATED, named);
    var merged := Merge(CREATED, named);
    NamedHolds(merged, d.values, d.name);
    var after := merged["id" := id];
    assert HoldsAt(merged["type"], d.values["type"]);
    forall key | key in d.values
      ensures key in after && HoldsAt(after[key], d.values[key])
    {
      assert after[key] == merged[key];
    }
    HoldsCompatible(after, d.values);
    RedactCompatible(after, d.values);
  }

  /** The local list of clients: labels as on the server, and the full view of what was not written in this run. */
  predicate Listing(clients: seq<Object>, stored: seq<Object>, written: set<string>) {
    && |clients| == |stored|
    && forall i | 0 <= i < |clients| ::
        SameLabels(clients[i], stored[i]) &&
        ((forall name | name in written :: Name(stored[i]) != Str(name)) ==> clients[i] == Redact(stored[i]))
  }

  /** A client was stored: in place of the one of its name, or as a new one. */
  predicate ClientStored(before: World, after: World, d: ClientDecl, at: nat, stored: Object)
    requires ValidClient(d)
  {
    && Name(stored) == Str(d.name) && Get(stored, "type") == d.values["type"]
    && if at < |before.clients| then
        && after == Replace(before, Clients, at, stored) && SameLabels(stored, before.clients[at])
        && Search(before.clients, ByName(d.name)) == One(at)
       else
         && at == |before.clients| && Id(stored) == Num(before.nextId)
         && after == before.(clients := before.clients + [stored], nextId := before.nextId + 1)
         && Search(before.clients, ByName(d.name)).Nothing?
  }

  lemma StoredSound(before: World, after: World, d: ClientDecl, at: nat, stored: Object)
    requires Sound(before) && ValidClient(d) && ClientStored(before, after, d, at, stored)
    ensures Sound(after) && ClientTouched(before, after, d.name, at)
  {
    if at < |before.clients| {
      FoundByName(before.clients, d.name, at);
    }
  }

  lemma ClientWritten(before: World, after: World, d: ClientDecl, at: nat, stored: Object)
    requires Sound(before) && ValidClient(d) && ClientStored(before, after, d, at, stored)
    requires Compatible(Redact(stored), d.values)
    ensures Sound(after) && ClientTouched(before, after, d.name, at)
    ensures Search(after.clients, ByName(d.name)) == One(at) && ClientReady(after.clients, d)
  {
    StoredSound(before, after, d, at, stored);
    NameMeans(stored, d.name);
    SearchFinds(before.clients, after.clients, at, ByName(d.name));
  }

  /** An existing client that is touched keeps whatever its declaration does not mention. */
  ghost predicate ClientPathsKept(before: seq<Object>, after: seq<Object>, d: ClientDecl, at: nat) {
    at < |before| && at < |after| ==> PathsKept(before[at], after[at], d.values)
  }

  /** Only the fingerprints of the touched client may differ. */
  ghost predicate LedgersKept(before: Ledgers, after: Ledgers, clients: seq<Object>, at: nat) {
    forall id :: (at < |clients| && id == Id(clients[at])) || LedgerOf(after, id) == LedgerOf(before, id)
  }

  /** Where a fingerprint was known, the new one has its salt. */
  ghost predicate SaltsKept(before: Ledgers, after: Ledgers) {
    forall id, path | path in LedgerOf(before, id) && path in LedgerOf(after, id) ::
        LedgerOf(after, id)[path].salt == LedgerOf(before, id)[path].salt
  }

  /** Fingerprints are taken after a client was stored; then it is settled if its declaration can match. */
  method Remember(hash: Hash, state: Ledgers, id: Json, d: ClientDecl, ghost clients: seq<Object>, ghost at: nat)
    returns (ledgers: Ledgers)
    requires ValidClient(d) && Search(clients, ByName(d.name)) == One(at) && at < |clients| && Id(clients[at]) == id
    requires Holds(clients[at], d.values) && Get(clients[at], "type") == d.values["type"]
    ensures Matchable(d.values) ==> ClientSettled(hash, clients, ledgers, d)
    ensures ClientInStep(hash, clients, ledgers, d)
    ensures LedgersKept(state, ledgers, clients, at)
    ensures SaltsKept(state, ledgers)
  {
    var taken := Fingerprints(hash, d.values, LedgerOf(state, id), "");
    ledgers := state[id := taken];
    RedactedMatch(hash, taken, clients[at], d.values, "");
    HoldingClient(hash, clients, ledgers, d, at);
  }

  method UpdateClient(hash: Hash, server: Server, state: Ledgers, d: ClientDecl, current: Object, ghost at: nat)
    returns (ok: bool, ledgers: Ledgers)
    requires ValidClient(d) && Sound(server.world) && Search(server.world.clients, ByName(d.name)) == One(at)
    requires current == Redact(server.world.clients[at]) && Get(server.world.clients[at], "type") == d.values["type"]
    modifies server`world, server`writes
    ensures Sound(server.world) && ClientTouched(old(server.world), server.world, d.name, at)
    ensures ok ==> Search(server.world.clients, ByName(d.name)) == One(at)
    ensures ClientReady(old(server.world.clients), d) ==>
        ClientReady(server.world.clients, d) && (server.reliable ==> ok)
    ensures ok && Matchable(d.values) ==> ClientSettled(hash, server.world.clients, ledgers, d)
    ensures ClientInStep(hash, old(server.world.clients), state, d) ==>
        ClientInStep(hash, server.world.clients, ledgers, d)
    ensures old(server.writes) <= server.writes && (ok ==> old(server.writes) < server.writes)
    ensures ok ==> ClientBears(server.world.clients, d)
    ensures (server.world == old(server.world) && ledgers == state) || ClientBears(server.world.clients, d)
    ensures ClientPathsKept(old(server.world.clients), server.world.clients, d, at)
    ensures LedgersKept(state, ledgers, server.world.clients, at)
    ensures SaltsKept(state, ledgers)
  {
    ledgers := state;
    ghost var before := server.world;
    var named := d.values["name" := Str(d.name)];
    var desired := MergeByKey(current, named);
    NamedHolds(current, d.values, d.name);
    FoundByName(before.clients, d.name, at);
    if desired.Err? {
      return false, ledgers;
    }
    StoredClient(before.clients[at], d);
    IdFinds(before.clients, before.nextId, at);
    var saved;
    ok, saved := server.Put(Clients, Id(desired.value), desired.value);
    ghost var stored := Keep(before.clients[at], desired.value);
    if ok || server.world != before {
      ClientWritten(before, server.world, d, at, stored);
      HoldingClient(hash, server.world.clients, state, d, at);
    }
    if ok {
      LabelsShown(stored);
      ledgers := Remember(hash, state, Id(saved), d, server.world.clients, at);
    }
  }

  lemma FoundByName(objects: seq<Object>, name: string, i: nat)
    requires Search(objects, ByName(name)) == One(i)
    ensures Name(objects[i]) == Str(name)
  {
    SearchMeans(objects, ByName(name));
    NameMeans(objects[i], name);
  }

  lemma NewlyAdded(before: seq<Object>, stored: Object, d: ClientDecl)
    requires Name(stored) == Str(d.name) && NewClient(stored, d)
    ensures NewClients(before, before, d) && NewClients(before, before + [stored], d)
  {
  }

  /** Posts a new client: its declaration, disabled unless declared otherwise. */
  method PostClient(server: Server, d: ClientDecl, ghost hash: Hash, ghost state: Ledgers)
    returns (ok: bool, saved: Object)
    requires ValidClient(d) && Sound(server.world) && Search(server.world.clients, ByName(d.name)).Nothing?
    modifies server`world, server`writes
    ensures Sound(server.world) && ClientTouched(old(server.world), server.world, d.name, |old(server.world.clients)|)
    ensures ok ==>
      var at := |old(server.world.clients)|;
      && Search(server.world.clients, ByName(d.name)) == One(at) && saved == Redact(server.world.clients[at])
      && Holds(server.world.clients[at], d.values) && Get(server.world.clients[at], "type") == d.values["type"]
    ensures ClientReady(server.world.clients, d) && (server.reliable ==> ok)
    ensures ClientInStep(hash, server.world.clients, state, d)
    ensures old(server.writes) < server.writes && (ok ==> server.world != old(server.world))
    ensures server.world == old(server.world) || ClientBears(server.world.clients, d)
    ensures old(server.world.clients) <= server.world.clients
    ensures NewClients(old(server.world.clients), server.world.clients, d)
  {
    ghost var before := server.world;
    CreatedClient(d, Num(before.nextId));
    var desired := MergeByKey(CREATED, d.values["name" := Str(d.name)]);
    ghost var stored := desired.value["id" := Num(before.nextId)];
    NewlyAdded(before.clients, stored, d);
    ok, saved := server.Post(Clients, desired.value);
    if ok || server.world != before {
      ClientWritten(before, server.world, d, |before.clients|, stored);
      HoldingClient(hash, server.world.clients, state, d, |before.clients|);
    }
  }

  method CreateClient(hash: Hash, server: Server, state: Ledgers, d: ClientDecl)
    returns (ok: bool, ledgers: Ledgers, saved: Object)
    requires ValidClient(d) && Sound(server.world) && Search(server.world.clients, ByName(d.name)).Nothing?
    modifies server`world, server`writes
    ensures Sound(server.world) && ClientTouched(old(server.world), server.world, d.name, |old(server.world.clients)|)
    ensures ok ==> Search(server.world.clients, ByName(d.name)) == One(|old(server.world.clients)|)
    ensures ok ==> saved == Redact(server.world.clients[|old(server.world.clients)|])
    ensures ClientReady(server.world.clients, d) && (server.reliable ==> ok)
    ensures ok && Matchable(d.values) ==> ClientSettled(hash, server.world.clients, ledgers, d)
    ensures ClientInStep(hash, server.world.clients, ledgers, d)
    ensures old(server.writes) < server.writes
    ensures ok ==> ClientBears(server.world.clients, d)
    ensures (server.world == old(server.world) && ledgers == state) || ClientBears(server.world.clients, d)
    ensures LedgersKept(state, ledgers, server.world.clients, |old(server.world.clients)|)
    ensures old(server.world.clients) <= server.world.clients
    ensures NewClients(old(server.world.clients), server.world.clients, d)
  {
    ledgers := state;
    ghost var before := server.world;
    ok, saved := PostClient(server, d, hash, state);
    if ok {
      LabelsShown(server.world.clients[|before.clients|]);
      ledgers := Remember(hash, state, Id(saved), d, server.world.clients, |before.clients|);
    }
  }

  /** The local list stays a listing of the server's clients. */
  lemma ListingKept(clients: seq<Object>, listed: seq<Object>, before: World, after: World, written: set<string>,
        name: string, at: nat)
    requires Listing(clients, before.clients, written) && ClientTouched(before, after, name, at)
    requires listed == clients || |listed| == |clients| + 1 == |after.clients|
    requires |listed| == |after.clients|
    requires listed != clients ==>
        at == |clients| && listed[..at] == clients && listed[at] == Redact(after.clients[at])
        && SameLabels(listed[at], after.clients[at])
    ensures Listing(listed, after.clients, written + {name})
  {
    forall i | 0 <= i < |listed|
      ensures SameLabels(listed[i], after.clients[i])
      ensures (forall n | n in written + {name} :: Name(after.clients[i]) != Str(n)) ==>
          listed[i] == Redact(after.clients[i])
    {
      if i < |clients| {
        assert listed[i] == clients[i];
        assert SameLabels(clients[i], before.clients[i]);
      }
      if forall n | n in written + {name} :: Name(after.clients[i]) != Str(n) {
        assert name in written + {name};
        forall n | n in written
          ensures Name(after.clients[i]) != Str(n)
        {
          assert n in written + {name};
        }
      }
    }
  }

  /** Whether the client matches; raises where it cannot be compared. */
  method CompareClient(hash: Hash, known: Ledger, current: Object, d: ClientDecl) returns (matched: Result<bool>)
    ensures matched == Ok(true) <==> Matches(hash, known, current, d.values, "")
    ensures Compatible(current, d.values) ==> matched.Ok?
    ensures HasNull(d.values) ==> matched != Ok(true)
  {
    matched := MatchByKey(hash, known, current, d.values, "");
    if Compatible(current, d.values) {
      CompatibleIsComparable(current, d.values);
    }
    if HasNull(d.values) {
      NullNeverMatches(hash, known, current, d.values, "");
    }
  }

  /** An existing client of the declared type is compared, and updated if it differs. */
  method ExistingClient(hash: Hash, server: Server, state: Ledgers, d: ClientDecl, current: Object, ghost at: nat)
    returns (ok: bool, ledgers: Ledgers)
    requires ValidClient(d) && Sound(server.world) && Search(server.world.clients, ByName(d.name)) == One(at)
    requires current == Redact(server.world.clients[at]) && Get(server.world.clients[at], "type") == d.values["type"]
    requires Id(current) == Id(server.world.clients[at])
    modifies server`world, server`writes
    ensures Sound(server.world) && ClientTouched(old(server.world), server.world, d.name, at)
    ensures ok ==> Search(server.world.clients, ByName(d.name)) == One(at)
    ensures ClientReady(old(server.world.clients), d) ==>
        ClientReady(server.world.clients, d) && (server.reliable ==> ok)
    ensures ok && Matchable(d.values) ==> ClientSettled(hash, server.world.clients, ledgers, d)
    ensures ClientInStep(hash, old(server.world.clients), state, d) ==>
        ClientInStep(hash, server.world.clients, ledgers, d)
    ensures old(server.writes) <= server.writes && (ok && HasNull(d.values) ==> old(server.writes) < server.writes)
    ensures ClientSettled(hash, old(server.world.clients), state, d) ==>
        ok && server.world == old(server.world) && server.writes == old(server.writes) && ledgers == state
    ensures ok ==> ClientGiven(hash, old(server.world.clients), state, server.world.clients, d)
    ensures (server.world == old(server.world) && ledgers == state) || ClientBears(server.world.clients, d)
    ensures ClientPathsKept(old(server.world.clients), server.world.clients, d, at)
    ensures LedgersKept(state, ledgers, server.world.clients, at)
    ensures SaltsKept(state, ledgers)
  {
    ledgers := state;
    FoundByName(server.world.clients, d.name, at);
    var matched := CompareClient(hash, LedgerOf(state, Id(current)), current, d);
    ok := matched.Ok?;
    if matched.Ok? && !matched.value {
      ok, ledgers := UpdateClient(hash, server, state, d, current, at);
    }
  }

  /** One declared client. In bootstrap mode an existing client is left alone. */
  method ReconcileClient(hash: Hash, server: Server, state: Ledgers, clients: seq<Object>, bootstrap: bool,
        d: ClientDecl, ghost written: set<string>)
    returns (ok: bool, ledgers: Ledgers, listed: seq<Object>, ghost at: nat)
    requires ValidClient(d) && Sound(server.world) && Listing(clients, server.world.clients, written)
    requires d.name !in written
    modifies server`world, server`writes
    ensures Sound(server.world) && ClientTouched(old(server.world), server.world, d.name, at)
    ensures ok ==> Listing(listed, server.world.clients, written + {d.name})
    ensures ok ==> Search(server.world.clients, ByName(d.name)).One?
    ensures ClientReady(old(server.world.clients), d) ==>
        ClientReady(server.world.clients, d) && (server.reliable ==> ok)
    ensures ok && !bootstrap && Matchable(d.values) ==> ClientSettled(hash, server.world.clients, ledgers, d)
    ensures ClientInStep(hash, old(server.world.clients), state, d) ==>
        ClientInStep(hash, server.world.clients, ledgers, d)
    ensures old(server.writes) <= server.writes
    ensures ok && !bootstrap && HasNull(d.values) ==> old(server.writes) < server.writes
    ensures ClientSettled(hash, old(server.world.clients), state, d) ==>
        ok && server.world == old(server.world) && server.writes == old(server.writes) && ledgers == state
    ensures bootstrap && Search(old(server.world.clients), ByName(d.name)).One? ==>
        server.world == old(server.world) && server.writes == old(server.writes) && ledgers == state
    ensures ok ==> ClientServed(hash, bootstrap, old(server.world.clients), state, server.world.clients, d)
    ensures bootstrap ==> old(server.world.clients) <= server.world.clients
    ensures NewClients(old(server.world.clients), server.world.clients, d)
    ensures (server.world == old(server.world) && ledgers == state) || ClientBears(server.world.clients, d)
    ensures ClientPathsKept(old(server.world.clients), server.world.clients, d, at)
    ensures LedgersKept(state, ledgers, server.world.clients, at)
  {
    ledgers, listed, at := state, clients, |clients|;
    ghost var before := server.world;
    SameNames(clients, before.clients, d.name);
    var found := Search(clients, ByName(d.name));
    if found.Many? {
      return false, ledgers, listed, at;
    }
    if found.One? {
      at := found.index;
      var current := clients[found.index];
      FoundByName(before.clients, d.name, at);
      assert SameLabels(current, before.clients[at]) && current == Redact(before.clients[at]);
      if Get(current, "type") != d.values["type"] {
        return false, ledgers, listed, at;
      }
      ok := true;
      if !bootstrap {
        ok, ledgers := ExistingClient(hash, server, state, d, current, at);
      }
    } else {
      var saved;
      ok, ledgers, saved := CreateClient(hash, server, state, d);
      if ok {
        LabelsShown(server.world.clients[at]);
        listed := clients + [saved];
      }
    }
    if ok {
      ListingKept(clients, listed, before, server.world, written, d.name, at);
    }
  }

  // ---------------------------------------------------------------- all declared clients

  predicate ValidClients(decls: seq<ClientDecl>) {
    && (forall i | 0 <= i < |decls| :: ValidClient(decls[i]))
    && (forall i, j | 0 <= i < j < |decls| :: decls[i].name != decls[j].name)
  }

  predicate ClientsReady(clients: seq<Object>, decls: seq<ClientDecl>)
    requires ValidClients(decls)
  {
    forall i | 0 <= i < |decls| :: ClientReady(clients, decls[i])
  }

  predicate ClientsSettled(hash: Hash, clients: seq<Object>, ledgers: Ledgers, decls: seq<ClientDecl>)
    requires ValidClients(decls)
  {
    forall i | 0 <= i < |decls| :: ClientSettled(hash, clients, ledgers, decls[i])
  }

  predicate ClientsInStep(hash: Hash, clients: seq<Object>, ledgers: Ledgers, decls: seq<ClientDecl>) {
    forall i | 0 <= i < |decls| :: ClientInStep(hash, clients, ledgers, decls[i])
  }

  /** A null is declared for one of the clients. */
  predicate NullClients(decls: seq<ClientDecl>) {
    decls != [] && (NullClients(decls[..|decls| - 1]) || HasNull(decls[|decls| - 1].values))
  }

  function ClientNames(decls: seq<ClientDecl>): set<string> {
    set i | 0 <= i < |decls| :: decls[i].name
  }

  /** Clients keep their place, id, name and type; those without one of the names are identical; others are new. */
  ghost predicate ClientsFrame(before: World, after: World, names: set<string>) {
    && after == before.(clients := after.clients, nextId := after.nextId) && before.nextId <= after.nextId
    && |before.clients| <= |after.clients|
    && (forall i | 0 <= i < |before.clients| :: SameLabels(after.clients[i], before.clients[i]))
    && (forall i | 0 <= i < |after.clients| ::
        Named(after.clients[i], names) ||
        (i < |before.clients| && after.clients[i] == before.clients[i]))
  }

  lemma FrameStep(start: World, before: World, after: World, names: set<string>, name: string, at: nat)
    requires ClientsFrame(start, before, names) && ClientTouched(before, after, name, at) && name in names
    ensures ClientsFrame(start, after, names)
  {
    forall i | 0 <= i < |after.clients|
      ensures Named(after.clients[i], names) ||
          (i < |start.clients| && after.clients[i] == start.clients[i])
    {
      if i == at && after != before {
        assert name in names && Name(after.clients[i]) == Str(name);
      } else {
        assert after.clients[i] == before.clients[i];
      }
    }
  }

  /** A step for one client is not felt by the declaration of another. */
  lemma OtherClient(hash: Hash, before: World, after: World, name: string, at: nat, state: Ledgers, ledgers: Ledgers,
        d: ClientDecl)
    requires Sound(before) && Sound(after) && ClientTouched(before, after, name, at)
    requires LedgersKept(state, ledgers, after.clients, at)
    requires ValidClient(d) && d.name != name
    ensures Search(after.clients, ByName(d.name)).One? <==> Search(before.clients, ByName(d.name)).One?
    ensures ClientReady(after.clients, d) <==> ClientReady(before.clients, d)
    ensures ClientSettled(hash, before.clients, state, d) ==> ClientSettled(hash, after.clients, ledgers, d)
    ensures ClientInStep(hash, before.clients, state, d) ==> ClientInStep(hash, after.clients, ledgers, d)
    ensures ClientLeft(before.clients, state, after.clients, ledgers, d.name)
  {
    if after != before {
      NameMeans(after.clients[at], d.name);
      if at < |before.clients| {
        NameMeans(before.clients[at], d.name);
      }
      SearchUndisturbed(before.clients, after.clients, at, ByName(d.name));
    }
    var found := Search(after.clients, ByName(d.name));
    if found.One? {
      FoundByName(after.clients, d.name, found.index);
      assert found.index != at;
    }
  }

  /** The first declarations are done. */
  ghost predicate ClientsSoFar(hash: Hash, clients: seq<Object>, ledgers: Ledgers, decls: seq<ClientDecl>, n: nat,
        bootstrap: bool)
    requires ValidClients(decls) && n <= |decls|
  {
    && (forall i | 0 <= i < n :: Search(clients, ByName(decls[i].name)).One?)
    && (!bootstrap ==>
        forall i | 0 <= i < n && Matchable(decls[i].values) :: ClientSettled(hash, clients, ledgers, decls[i]))
  }

  lemma ClientsStep(hash: Hash, before: World, after: World, at: nat, state: Ledgers, ledgers: Ledgers,
        decls: seq<ClientDecl>, n: nat, bootstrap: bool)
    requires ValidClients(decls) && n < |decls| && Sound(before) && Sound(after)
    requires ClientTouched(before, after, decls[n].name, at) && LedgersKept(state, ledgers, after.clients, at)
    requires ClientsSoFar(hash, before.clients, state, decls, n, bootstrap)
    ensures ClientsReady(before.clients, decls) && ClientReady(after.clients, decls[n]) ==>
        ClientsReady(after.clients, decls)
    ensures
      && ClientsInStep(hash, before.clients, state, decls)
      && ClientInStep(hash, after.clients, ledgers, decls[n])
      ==> ClientsInStep(hash, after.clients, ledgers, decls)
    ensures
      && Search(after.clients, ByName(decls[n].name)).One?
      && (!bootstrap && Matchable(decls[n].values) ==> ClientSettled(hash, after.clients, ledgers, decls[n]))
      ==> ClientsSoFar(hash, after.clients, ledgers, decls, n + 1, bootstrap)
  {
    forall i | 0 <= i < |decls| && i != n {
      OtherClient(hash, before, after, decls[n].name, at, state, ledgers, decls[i]);
    }
  }

  lemma NamesNext(decls: seq<ClientDecl>, n: nat)
    requires ValidClients(decls) && n < |decls|
    ensures ClientNames(decls[..n + 1]) == ClientNames(decls[..n]) + {decls[n].name}
    ensures decls[n].name !in ClientNames(decls[..n])
  {
    assert decls[..n + 1] == decls[..n] + [decls[n]];
    NamesAdd(decls[..n], decls[n]);
  }

  lemma NamesAdd(decls: seq<ClientDecl>, d: ClientDecl)
    ensures ClientNames(decls + [d]) == ClientNames(decls) + {d.name}
  {
    forall name | name in ClientNames(decls) + {d.name}
      ensures name in ClientNames(decls + [d])
    {
      if name == d.name {
        assert (decls + [d])[|decls|].name == name;
      } else {
        var i :| 0 <= i < |decls| && decls[i].name == name;
        assert (decls + [d])[i].name == name;
      }
    }
  }

  /** Declared clients keep whatever their declarations do not mention. */
  ghost predicate ClientPaths(before: seq<Object>, after: seq<Object>, decls: seq<ClientDecl>) {
    |before| <= |after| &&
    forall i, k | 0 <= i < |before| && 0 <= k < |decls| && Name(before[i]) == Str(decls[k].name) ::
      PathsKept(before[i], after[i], decls[k].values)
  }

  lemma PathsStep(start: World, before: World, after: World, decls: seq<ClientDecl>, n: nat, at: nat)
    requires ValidClients(decls) && n < |decls| && ClientsFrame(start, before, ClientNames(decls))
    requires ClientTouched(before, after, decls[n].name, at)
    requires ClientPathsKept(before.clients, after.clients, decls[n], at)
    requires ClientPaths(start.clients, before.clients, decls)
    ensures ClientPaths(start.clients, after.clients, decls)
  {
    forall i, k | 0 <= i < |start.clients| && 0 <= k < |decls| && Name(start.clients[i]) == Str(decls[k].name)
      ensures PathsKept(start.clients[i], after.clients[i], decls[k].values)
    {
      assert SameLabels(before.clients[i], start.clients[i]);
      assert PathsKept(start.clients[i], before.clients[i], decls[k].values);
      if i == at && after != before {
        assert k == n;
        PathsKeptTwice(start.clients[i], before.clients[i], after.clients[i], decls[n].values);
      }
    }
  }

  /** Every client that was added is a new one of a declared name. */
  ghost predicate AddedClients(before: seq<Object>, after: seq<Object>, decls: seq<ClientDecl>) {
    forall i | |before| <= i < |after| ::
      exists k | 0 <= k < |decls| :: Name(after[i]) == Str(decls[k].name) && NewClient(after[i], decls[k])
  }

  lemma AddedStep(start: World, before: World, after: World, decls: seq<ClientDecl>, n: nat, at: nat)
    requires ValidClients(decls) && n < |decls| && AddedClients(start.clients, before.clients, decls)
    requires ClientTouched(before, after, decls[n].name, at) && NewClients(before.clients, after.clients, decls[n])
    requires ClientPathsKept(before.clients, after.clients, decls[n], at)
    ensures AddedClients(start.clients, after.clients, decls)
  {
    forall i | |start.clients| <= i < |after.clients|
      ensures exists k | 0 <= k < |decls| ::
          Name(after.clients[i]) == Str(decls[k].name) && NewClient(after.clients[i], decls[k])
    {
      if i < |before.clients| {
        var k :| 0 <= k < |decls| && Name(before.clients[i]) == Str(decls[k].name)
            && NewClient(before.clients[i], decls[k]);
        if i == at && after != before {
          assert k == n;
          StillNew(before.clients[i], after.clients[i], decls[n]);
        }
        assert Name(after.clients[i]) == Str(decls[k].name) && NewClient(after.clients[i], decls[k]);
      } else {
        assert Name(after.clients[i]) == Str(decls[n].name) && NewClient(after.clients[i], decls[n]);
      }
    }
  }

  lemma StillNew(before: Object, after: Object, d: ClientDecl)
    requires NewClient(before, d) && PathsKept(before, after, d.values)
    ensures NewClient(after, d)
  {
    forall key | key !in d.values && key !in {"id", "name"}
      ensures At(Obj(after), [key]) == At(Obj(before), [key])
    {
      assert Undeclared(d.values, [key]);
    }
  }

  lemma PathsKeptTwice(a: Object, b: Object, c: Object, values: Object)
    requires PathsKept(a, b, values) && PathsKept(b, c, values)
    ensures PathsKept(a, c, values)
  {
  }

  /** Every client is left alone with its fingerprints, or was not settled at the start and has what is declared. */
  ghost predicate ClientsHandled(hash: Hash, start: seq<Object>, known: Ledgers, clients: seq<Object>, ledgers: Ledgers,
        decls: seq<ClientDecl>)
    requires ValidClients(decls)
  {
    forall i | 0 <= i < |decls| :: ClientHandled(hash, start, known, clients, ledgers, decls[i])
  }

  /** Clients whose turn has not come are as they were at the start. */
  ghost predicate LaterLeft(start: seq<Object>, known: Ledgers, clients: seq<Object>, ledgers: Ledgers,
        decls: seq<ClientDecl>, n: nat)
  {
    forall i | n <= i < |decls| :: ClientLeft(start, known, clients, ledgers, decls[i].name)
  }

  /** The first declarations were given what a finished run owes them. */
  ghost predicate ClientsGiven(hash: Hash, bootstrap: bool, start: seq<Object>, known: Ledgers, clients: seq<Object>,
        decls: seq<ClientDecl>, n: nat)
    requires ValidClients(decls) && n <= |decls|
  {
    forall i | 0 <= i < n :: ClientServed(hash, bootstrap, start, known, clients, decls[i])
  }

  lemma LeftTwice(a: seq<Object>, la: Ledgers, b: seq<Object>, lb: Ledgers, c: seq<Object>, lc: Ledgers, name: string)
    requires ClientLeft(a, la, b, lb, name) && ClientLeft(b, lb, c, lc, name)
    ensures ClientLeft(a, la, c, lc, name)
  {
  }

  lemma LeftMeans(hash: Hash, a: seq<Object>, la: Ledgers, b: seq<Object>, lb: Ledgers, d: ClientDecl)
    requires ValidClient(d) && ClientLeft(a, la, b, lb, d.name)
    ensures ClientSettled(hash, a, la, d) <==> ClientSettled(hash, b, lb, d)
    ensures ClientBears(a, d) <==> ClientBears(b, d)
  {
  }

  /** A run that was cut off and one that came to its end give a client together what the second alone would. */
  lemma GivenTwice(hash: Hash, a: seq<Object>, la: Ledgers, b: seq<Object>, lb: Ledgers, c: seq<Object>, lc: Ledgers,
        d: ClientDecl)
    requires ValidClient(d) && ClientHandled(hash, a, la, b, lb, d) && ClientHandled(hash, b, lb, c, lc, d)
    ensures ClientHandled(hash, a, la, c, lc, d)
    ensures ClientGiven(hash, b, lb, c, d) ==> ClientGiven(hash, a, la, c, d)
  {
    if ClientLeft(a, la, b, lb, d.name) {
      LeftMeans(hash, a, la, b, lb, d);
    }
    if ClientLeft(b, lb, c, lc, d.name) {
      LeftMeans(hash, b, lb, c, lc, d);
    }
  }

  /** One turn, seen from all the clients that were settled, are done, or are still to come. */
  lemma GivenStep(hash: Hash, start: World, known: Ledgers, before: World, state: Ledgers, after: World,
        ledgers: Ledgers, decls: seq<ClientDecl>, n: nat, at: nat, bootstrap: bool)
    requires ValidClients(decls) && n < |decls| && Sound(before) && Sound(after)
    requires ClientTouched(before, after, decls[n].name, at) && LedgersKept(state, ledgers, after.clients, at)
    requires ClientSettled(hash, before.clients, state, decls[n]) ==> after == before && ledgers == state
    requires (after == before && ledgers == state) || ClientBears(after.clients, decls[n])
    requires ClientsHandled(hash, start.clients, known, before.clients, state, decls)
    requires LaterLeft(start.clients, known, before.clients, state, decls, n)
    ensures ClientsHandled(hash, start.clients, known, after.clients, ledgers, decls)
    ensures LaterLeft(start.clients, known, after.clients, ledgers, decls, n + 1)
    ensures
      && ClientsGiven(hash, bootstrap, start.clients, known, before.clients, decls, n)
      && ClientServed(hash, bootstrap, before.clients, state, after.clients, decls[n])
      ==> ClientsGiven(hash, bootstrap, start.clients, known, after.clients, decls, n + 1)
  {
    LeftMeans(hash, start.clients, known, before.clients, state, decls[n]);
    forall i | 0 <= i < |decls|
      ensures n < i ==> ClientLeft(start.clients, known, after.clients, ledgers, decls[i].name)
      ensures ClientHandled(hash, start.clients, known, after.clients, ledgers, decls[i])
      ensures i < n && ClientServed(hash, bootstrap, start.clients, known, before.clients, decls[i]) ==>
          ClientServed(hash, bootstrap, start.clients, known, after.clients, decls[i])
    {
      if i != n {
        OtherGiven(hash, start, known, before, state, after, ledgers, decls[n].name, at, decls[i]);
      }
    }
  }

  lemma OtherGiven(hash: Hash, start: World, known: Ledgers, before: World, state: Ledgers, after: World,
        ledgers: Ledgers, name: string, at: nat, d: ClientDecl)
    requires Sound(before) && Sound(after) && ClientTouched(before, after, name, at)
    requires LedgersKept(state, ledgers, after.clients, at) && ValidClient(d) && d.name != name
    ensures ClientLeft(start.clients, known, before.clients, state, d.name) ==>
        ClientLeft(start.clients, known, after.clients, ledgers, d.name)
    ensures ClientHandled(hash, start.clients, known, before.clients, state, d) ==>
        ClientHandled(hash, start.clients, known, after.clients, ledgers, d)
    ensures ClientGiven(hash, start.clients, known, before.clients, d) ==>
        ClientGiven(hash, start.clients, known, after.clients, d)
  {
    OtherClient(hash, before, after, name, at, state, ledgers, d);
    LeftMeans(hash, before.clients, state, after.clients, ledgers, d);
    if ClientLeft(start.clients, known, before.clients, state, d.name) {
      LeftTwice(start.clients, known, before.clients, state, after.clients, ledgers, d.name);
    }
  }

  /** What a run over clients has made of server and ledger, wherever it ends. */
  ghost predicate ClientsOutcome(hash: Hash, start: World, known: Ledgers, sent: nat, w: World, ledgers: Ledgers,
        writes: nat, decls: seq<ClientDecl>, bootstrap: bool)
    requires ValidClients(decls)
  {
    && Sound(w) && ClientsFrame(start, w, ClientNames(decls)) && sent <= writes
    && ClientPaths(start.clients, w.clients, decls) && AddedClients(start.clients, w.clients, decls)
    && (bootstrap ==> start.clients <= w.clients)
    && ClientsHandled(hash, start.clients, known, w.clients, ledgers, decls)
    && (ClientsReady(start.clients, decls) ==> ClientsReady(w.clients, decls))
    && (ClientsInStep(hash, start.clients, known, decls) ==> ClientsInStep(hash, w.clients, ledgers, decls))
    && (ClientsSettled(hash, start.clients, known, decls) ==> w == start && writes == sent && ledgers == known)
  }

  /** How far a run over clients has come that was not cut off. */
  ghost predicate ClientsRun(hash: Hash, start: World, known: Ledgers, sent: nat, w: World, ledgers: Ledgers,
        writes: nat, listed: seq<Object>, decls: seq<ClientDecl>, n: nat, bootstrap: bool)
    requires ValidClients(decls) && n <= |decls|
  {
    && ClientsOutcome(hash, start, known, sent, w, ledgers, writes, decls, bootstrap)
    && Listing(listed, w.clients, ClientNames(decls[..n]))
    && ClientsSoFar(hash, w.clients, ledgers, decls, n, bootstrap)
    && LaterLeft(start.clients, known, w.clients, ledgers, decls, n)
    && ClientsGiven(hash, bootstrap, start.clients, known, w.clients, decls, n)
    && (!bootstrap && NullClients(decls[..n]) ==> sent < writes)
  }

  /** What one turn may make of the clients, the fingerprints and the count of writes, wherever it ends. */
  ghost predicate ClientTaken(hash: Hash, bootstrap: bool, before: World, state: Ledgers, sent: nat, after: World,
        ledgers: Ledgers, writes: nat, d: ClientDecl, at: nat)
    requires ValidClient(d)
  {
    && Sound(after) && ClientTouched(before, after, d.name, at) && sent <= writes
    && (ClientReady(before.clients, d) ==> ClientReady(after.clients, d))
    && (ClientInStep(hash, before.clients, state, d) ==> ClientInStep(hash, after.clients, ledgers, d))
    && (ClientSettled(hash, before.clients, state, d) ==> after == before && writes == sent && ledgers == state)
    && (bootstrap ==> before.clients <= after.clients) && NewClients(before.clients, after.clients, d)
    && ((after == before && ledgers == state) || ClientBears(after.clients, d))
    && ClientPathsKept(before.clients, after.clients, d, at) && LedgersKept(state, ledgers, after.clients, at)
  }

  lemma OutcomeStep(hash: Hash, start: World, known: Ledgers, sent: nat, before: World, state: Ledgers, written: nat,
        after: World, ledgers: Ledgers, writes: nat, decls: seq<ClientDecl>, n: nat, at: nat, bootstrap: bool)
    requires ValidClients(decls) && n < |decls|
    requires ClientsOutcome(hash, start, known, sent, before, state, written, decls, bootstrap)
    requires LaterLeft(start.clients, known, before.clients, state, decls, n)
    requires ClientsSoFar(hash, before.clients, state, decls, n, bootstrap)
    requires ClientTaken(hash, bootstrap, before, state, written, after, ledgers, writes, decls[n], at)
    ensures ClientsOutcome(hash, start, known, sent, after, ledgers, writes, decls, bootstrap)
  {
    ClientsStep(hash, before, after, at, state, ledgers, decls, n, bootstrap);
    FrameStep(start, before, after, ClientNames(decls), decls[n].name, at);
    PathsStep(start, before, after, decls, n, at);
    GivenStep(hash, start, known, before, state, after, ledgers, decls, n, at, bootstrap);
    AddedStep(start, before, after, decls, n, at);
  }

  lemma RunStep(hash: Hash, start: World, known: Ledgers, sent: nat, before: World, state: Ledgers, written: nat,
        clients: seq<Object>, after: World, ledgers: Ledgers, writes: nat, listed: seq<Object>,
        decls: seq<ClientDecl>, n: nat, at: nat, bootstrap: bool)
    requires ValidClients(decls) && n < |decls|
    requires ClientsRun(hash, start, known, sent, before, state, written, clients, decls, n, bootstrap)
    requires ClientTaken(hash, bootstrap, before, state, written, after, ledgers, writes, decls[n], at)
    requires ClientsOutcome(hash, start, known, sent, after, ledgers, writes, decls, bootstrap)
    requires Listing(listed, after.clients, ClientNames(decls[..n]) + {decls[n].name})
    requires Search(after.clients, ByName(decls[n].name)).One?
    requires !bootstrap && Matchable(decls[n].values) ==> ClientSettled(hash, after.clients, ledgers, decls[n])
    requires !bootstrap && HasNull(decls[n].values) ==> written < writes
    requires ClientServed(hash, bootstrap, before.clients, state, after.clients, decls[n])
    ensures ClientsRun(hash, start, known, sent, after, ledgers, writes, listed, decls, n + 1, bootstrap)
  {
    NamesNext(decls, n);
    NullNext(decls, n);
    ClientsStep(hash, before, after, at, state, ledgers, decls, n, bootstrap);
    GivenStep(hash, start, known, before, state, after, ledgers, decls, n, at, bootstrap);
  }

  method ClientTurn(hash: Hash, server: Server, state: Ledgers, clients: seq<Object>, bootstrap: bool,
        decls: seq<ClientDecl>, n: nat, ghost start: World, ghost known: Ledgers, ghost sent: nat)
    returns (ok: bool, ledgers: Ledgers, listed: seq<Object>)
    requires ValidClients(decls) && n < |decls|
    requires ClientsRun(hash, start, known, sent, server.world, state, server.writes, clients, decls, n, bootstrap)
    modifies server`world, server`writes
    ensures ok ==>
        ClientsRun(hash, start, known, sent, server.world, ledgers, server.writes, listed, decls, n + 1, bootstrap)
    ensures ClientsOutcome(hash, start, known, sent, server.world, ledgers, server.writes, decls, bootstrap)
    ensures ClientsReady(start.clients, decls) && server.reliable ==> ok
    ensures ClientsSettled(hash, start.clients, known, decls) ==> ok
  {
    ghost var before, written := server.world, server.writes;
    ghost var at;
    NamesNext(decls, n);
    ok, ledgers, listed, at :=
      ReconcileClient(hash, server, state, clients, bootstrap, decls[n], ClientNames(decls[..n]));
    OutcomeStep(hash, start, known, sent, before, state, written, server.world, ledgers, server.writes, decls, n, at,
      bootstrap);
    if ok {
      RunStep(hash, start, known, sent, before, state, written, clients, server.world, ledgers, server.writes, listed,
        decls, n, at, bootstrap);
    }
  }

  /** Nothing was sent. */
  lemma NothingSent(hash: Hash, w: World, known: Ledgers, sent: nat, decls: seq<ClientDecl>, bootstrap: bool)
    requires ValidClients(decls) && Sound(w)
    ensures ClientsOutcome(hash, w, known, sent, w, known, sent, decls, bootstrap)
  {
  }

  /** A run that has not begun. */
  lemma NoClientsYet(hash: Hash, w: World, known: Ledgers, sent: nat, listed: seq<Object>, decls: seq<ClientDecl>,
        bootstrap: bool)
    requires ValidClients(decls) && Sound(w) && Listing(listed, w.clients, {})
    ensures ClientsRun(hash, w, known, sent, w, known, sent, listed, decls, 0, bootstrap)
  {
    NothingSent(hash, w, known, sent, decls, bootstrap);
    assert ClientNames(decls[..0]) == {};
  }

  /** A run that has come to its end. */
  lemma ClientsEnd(hash: Hash, start: World, known: Ledgers, sent: nat, w: World, ledgers: Ledgers, writes: nat,
        listed: seq<Object>, decls: seq<ClientDecl>, bootstrap: bool)
    requires ValidClients(decls)
    requires ClientsRun(hash, start, known, sent, w, ledgers, writes, listed, decls, |decls|, bootstrap)
    ensures Listing(listed, w.clients, ClientNames(decls))
    ensures ClientsSoFar(hash, w.clients, ledgers, decls, |decls|, bootstrap)
    ensures ClientsGiven(hash, bootstrap, start.clients, known, w.clients, decls, |decls|)
    ensures !bootstrap && NullClients(decls) ==> sent < writes
  {
    assert decls[..|decls|] == decls;
  }

  lemma NullNext(decls: seq<ClientDecl>, n: nat)
    requires n < |decls|
    ensures NullClients(decls[..n + 1]) <==> NullClients(decls[..n]) || HasNull(decls[n].values)
  {
    assert decls[..n + 1][..n] == decls[..n];
  }

  method ReconcileClients(hash: Hash, server: Server, state: Ledgers, clients: seq<Object>, bootstrap: bool,
        decls: seq<ClientDecl>)
    returns (ok: bool, ledgers: Ledgers, listed: seq<Object>)
    requires ValidClients(decls) && Sound(server.world) && Listing(clients, server.world.clients, {})
    modifies server`world, server`writes
    ensures ClientsOutcome(hash, old(server.world), state, old(server.writes), server.world, ledgers, server.writes,
        decls, bootstrap)
    ensures ClientsReady(old(server.world.clients), decls) && server.reliable ==> ok
    ensures ClientsSettled(hash, old(server.world.clients), state, decls) ==> ok
    ensures ok ==> Listing(listed, server.world.clients, ClientNames(decls))
    ensures ok ==> ClientsSoFar(hash, server.world.clients, ledgers, decls, |decls|, bootstrap)
    ensures ok ==>
        ClientsGiven(hash, bootstrap, old(server.world.clients), state, server.world.clients, decls, |decls|)
    ensures ok && !bootstrap && NullClients(decls) ==> old(server.writes) < server.writes
  {
    ok, ledgers, listed := true, state, clients;
    NoClientsYet(hash, server.world, state, server.writes, clients, decls, bootstrap);
    for n := 0 to |decls|
      invariant ok && ClientsRun(hash, old(server.world), state, old(server.writes), server.world, ledgers,
          server.writes, listed, decls, n, bootstrap)
    {
      ok, ledgers, listed :=
        ClientTurn(hash, server, ledgers, listed, bootstrap, decls, n, old(server.world), state, old(server.writes));
      if !ok {
        return;
      }
    }
    ClientsEnd(hash, old(server.world), state, old(server.writes), server.world, ledgers, server.writes, listed, decls,
      bootstrap);
  }
}
