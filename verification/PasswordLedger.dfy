/**
 * The password ledgers of the Jellyfin, Audiobookshelf and Navidrome adapters: salted fingerprints of the passwords
 * that a server accepted, written after every acceptance. Requests may fail on either side of their effect.
 */
module PasswordLedger {
  import opened AccountFields
  import opened Faults
  import opened JsonValues
  import opened Objects
  import SharedMerge

  // ---------------------------------------------------------------- fingerprints

  datatype Fingerprint = Fingerprint(salt: string, digest: string)

  datatype Entry = Unknown | Known(stored: Fingerprint)

  /** The salted one-way function. */
  type Hash = (string, string) -> string

  ghost predicate Injective(hash: Hash) {
    forall salt: string, p: string, q: string :: hash(salt, p) == hash(salt, q) ==> p == q
  }

  predicate Verifies(hash: Hash, stored: Fingerprint, password: string) {
    stored.digest == hash(stored.salt, password)
  }

  /** The previous fingerprint if it verifies the password, else one with a fresh salt. */
  method TakeFingerprint(hash: Hash, password: string, previous: Entry) returns (taken: Fingerprint)
    ensures Verifies(hash, taken, password)
    ensures previous == Known(taken) <==> previous.Known? && Verifies(hash, previous.stored, password)
  {
    if previous.Known? && Verifies(hash, previous.stored, password) {
      return previous.stored;
    }
    var salt: string := *;
    taken := Fingerprint(salt, hash(salt, password));
  }

  // ---------------------------------------------------------------- accounts and their ledger

  datatype Account = Account(name: string, id: nat, fields: Object)

  /**
   * The server's accounts with their passwords and every password it ever accepted, the ledger file, and how often a
   * password was sent for each account; a request to create one counts for the id that it would get.
   */
  datatype Site = Site(
    users: seq<Account>, nextId: nat, passwords: map<nat, string>, accepted: set<(nat, string)>,
    ledger: map<nat, Fingerprint>, sent: multiset<nat>)

  function EntryOf(site: Site, id: nat): Entry {
    if id in site.ledger then Known(site.ledger[id]) else Unknown
  }

  predicate Verified(hash: Hash, site: Site, id: nat, password: string) {
    id in site.ledger && Verifies(hash, site.ledger[id], password)
  }

  /** The fingerprint of an account was taken from a password that the server accepted for it. */
  ghost predicate Backed(hash: Hash, site: Site, id: nat) {
    exists password :: (id, password) in site.accepted && Verified(hash, site, id, password)
  }

  ghost predicate Sound(hash: Hash, site: Site) {
    && (forall id | id in site.ledger :: Backed(hash, site, id))
    && (forall taken | taken in site.accepted :: taken.0 < site.nextId)
    && (forall i | 0 <= i < |site.users| :: site.users[i].id < site.nextId)
    && (forall i, j | 0 <= i < j < |site.users| :: site.users[i].id != site.users[j].id)
  }

  /** The ledger never runs ahead: it verifies no password but accepted ones. */
  lemma OnlyAccepted(hash: Hash, site: Site, id: nat, password: string)
    requires Injective(hash) && Sound(hash, site) && Verified(hash, site, id, password)
    ensures (id, password) in site.accepted
  {
    assert Backed(hash, site, id);
    var other :| (id, other) in site.accepted && Verified(hash, site, id, other);
    assert other == password;
  }

  /** How an adapter compares names. */
  type Fold = string -> string

  function Key(fold: Fold, name: string): Object {
    map["name" := Str(fold(name))]
  }

  function Keys(fold: Fold, users: seq<Account>): (keys: seq<Object>)
    ensures |keys| == |users| && forall i | 0 <= i < |users| :: keys[i] == Key(fold, users[i].name)
  {
    seq(|users|, i requires 0 <= i < |users| => Key(fold, users[i].name))
  }

  function Find(fold: Fold, users: seq<Account>, name: string): (found: Found)
    ensures found.One? ==> found.index < |users|
  {
    Search(Keys(fold, users), Key(fold, name))
  }

  lemma KeyMeans(fold: Fold, a: string, b: string)
    ensures Satisfies(Key(fold, a), Key(fold, b)) <==> fold(a) == fold(b)
  {
    assert "name" in Key(fold, b);
  }

  // ---------------------------------------------------------------- requests

  class Host {
    var site: Site

    /** Whether requests are answered and the process survives. */
    var reliable: bool

    /** How many requests that change something were sent. */
    var requests: nat

    constructor (site: Site, reliable: bool)
      ensures this.site == site && this.reliable == reliable && requests == 0
    {
      this.site, this.reliable, this.requests := site, reliable, 0;
    }

    /** Creates an account with its first password. */
    method Create(name: string, fields: Object, password: string) returns (ok: bool, id: nat)
      modifies `site, `requests
      ensures requests == old(requests) + 1
      ensures reliable ==> ok
      ensures ok ==> site == Created(old(site), name, fields, password) && id == old(site).nextId
      ensures site == Sending(old(site), old(site).nextId) || site == Created(old(site), name, fields, password)
    {
      var done;
      done, ok := Luck(reliable);
      id := site.nextId;
      requests := requests + 1;
      site := if done then Created(site, name, fields, password) else Sending(site, id);
    }

    /** Changes the fields of an account, and its password if one is given. */
    method Update(i: nat, fields: Object, password: string) returns (ok: bool)
      requires i < |site.users|
      modifies `site, `requests
      ensures requests == old(requests) + 1
      ensures reliable ==> ok
      ensures ok ==> site == Updated(old(site), i, fields, password)
      ensures site == Requested(old(site), i, password) || site == Updated(old(site), i, fields, password)
    {
      var done;
      done, ok := Luck(reliable);
      requests := requests + 1;
      site := if done then Updated(site, i, fields, password) else Requested(site, i, password);
    }

    /** Replaces the ledger file with one more fingerprint; the process may die before or after. */
    method Save(id: nat, taken: Fingerprint) returns (ok: bool)
      modifies `site
      ensures reliable ==> ok
      ensures ok ==> site == Saved(old(site), id, taken)
      ensures site == old(site) || site == Saved(old(site), id, taken)
    {
      var done;
      done, ok := Luck(reliable);
      if done {
        site := Saved(site, id, taken);
      }
    }
  }

  function Sending(site: Site, id: nat): Site {
    site.(sent := site.sent + multiset{id})
  }

  /** An update was sent. */
  function Requested(site: Site, i: nat, password: string): Site
    requires i < |site.users|
  {
    if password == "" then site else Sending(site, site.users[i].id)
  }

  function Created(site: Site, name: string, fields: Object, password: string): Site {
    site.(users := site.users + [Account(name, site.nextId, fields)], nextId := site.nextId + 1,
        passwords := site.passwords[site.nextId := password], accepted := site.accepted + {(site.nextId, password)},
        sent := site.sent + multiset{site.nextId})
  }

  function Saved(site: Site, id: nat, taken: Fingerprint): Site {
    site.(ledger := site.ledger[id := taken])
  }

  /** The given keys are overwritten, and the password if there is one. */
  function Updated(site: Site, i: nat, fields: Object, password: string): Site
    requires i < |site.users|
  {
    var id := site.users[i].id;
    var changed := site.(users := site.users[i := site.users[i].(fields := site.users[i].fields + fields)]);
    if password == "" then changed
    else changed.(passwords := site.passwords[id := password], accepted := site.accepted + {(id, password)},
        sent := site.sent + multiset{id})
  }

  // ---------------------------------------------------------------- one account

  /** The id of the account at a place, or of the next one to be created. */
  function PlaceId(site: Site, at: nat): nat {
    if at < |site.users| then site.users[at].id else site.nextId
  }

  /** One account was changed or added; the others, with their fingerprints and passwords, are as they were. */
  ghost predicate Touched(fold: Fold, before: Site, after: Site, name: string, at: nat) {
    && (|after.users| == |before.users| || (|after.users| == |before.users| + 1 && at == |before.users|))
    && before.nextId <= after.nextId && before.accepted <= after.accepted
    && (forall i | 0 <= i < |before.users| && i != at :: after.users[i] == before.users[i])
    && (at < |after.users| ==> fold(after.users[at].name) == fold(name) && after.users[at].id == PlaceId(before, at))
    && (at < |before.users| ==> after.users[at].name == before.users[at].name)
    && (forall id | id != PlaceId(before, at) :: SameEntry(before, after, id))
    && before.sent[PlaceId(before, at)] <= after.sent[PlaceId(before, at)]
    && (after.sent[PlaceId(before, at)] == before.sent[PlaceId(before, at)] ==>
        SamePassword(before, after, PlaceId(before, at)))
  }

  predicate SamePassword(before: Site, after: Site, id: nat) {
    && (id in before.passwords <==> id in after.passwords)
    && (id in before.passwords ==> after.passwords[id] == before.passwords[id])
  }

  /** The account's fingerprint and password are the same, and no password was sent for it. */
  predicate SameEntry(before: Site, after: Site, id: nat) {
    EntryOf(after, id) == EntryOf(before, id) && SamePassword(before, after, id) && after.sent[id] == before.sent[id]
  }

  /** There is exactly one account of the name, and its fingerprint verifies the declared password. */
  predicate Settled(hash: Hash, fold: Fold, site: Site, s: Spec) {
    var found := Find(fold, site.users, s.name);
    found.One? && Verified(hash, site, site.users[found.index].id, s.password)
  }

  /** The one account of the name was last given the declared password. */
  predicate Given(fold: Fold, site: Site, s: Spec) {
    var found := Find(fold, site.users, s.name);
    found.One? && site.users[found.index].id in site.passwords
        && site.passwords[site.users[found.index].id] == s.password
  }

  // ---------------------------------------------------------------- ledger and server in step

  /** The fingerprint of the account, if there is one, is that of the password which the server holds. */
  predicate InStep(hash: Hash, site: Site, id: nat) {
    id in site.ledger ==> id in site.passwords && Verified(hash, site, id, site.passwords[id])
  }

  /** The server took the password and the ledger does not know. */
  predicate Unrecorded(hash: Hash, site: Site, id: nat, password: string) {
    && password != "" && id in site.passwords && site.passwords[id] == password
    && !Verified(hash, site, id, password)
  }

  /**
   * Handling an account keeps its ledger entry in step, unless the server took the password and the adapter failed
   * before the fingerprint was stored: the answer was lost, or the ledger was not written.
   */
  predicate StaysInStep(hash: Hash, before: Site, after: Site, id: nat, password: string, ok: bool) {
    InStep(hash, before, id) ==> InStep(hash, after, id) || (!ok && Unrecorded(hash, after, id, password))
  }

  /** For an account that is settled, being in step with the server and holding the declared password are the same. */
  lemma InStepMeansGiven(hash: Hash, fold: Fold, site: Site, s: Spec)
    requires Injective(hash) && Settled(hash, fold, site, s)
    ensures Given(fold, site, s) <==> InStep(hash, site, site.users[Find(fold, site.users, s.name).index].id)
  {
    var id := site.users[Find(fold, site.users, s.name).index].id;
    if id in site.passwords && Verified(hash, site, id, site.passwords[id]) {
      assert hash(site.ledger[id].salt, site.passwords[id]) == hash(site.ledger[id].salt, s.password);
    }
  }

  // ---------------------------------------------------------------- what requests keep

  lemma SoundUpdate(hash: Hash, before: Site, after: Site)
    requires Sound(hash, before) && after.ledger == before.ledger && before.accepted <= after.accepted
    requires before.nextId <= after.nextId && forall taken | taken in after.accepted :: taken.0 < after.nextId
    requires |after.users| == |before.users| && forall i | 0 <= i < |before.users| ::
        after.users[i].id == before.users[i].id
    ensures Sound(hash, after)
  {
    forall id | id in after.ledger
      ensures Backed(hash, after, id)
    {
      assert Backed(hash, before, id);
      var password :| (id, password) in before.accepted && Verified(hash, before, id, password);
      assert (id, password) in after.accepted && Verified(hash, after, id, password);
    }
  }

  lemma SoundSave(hash: Hash, before: Site, id: nat, taken: Fingerprint, password: string)
    requires Sound(hash, before) && Verifies(hash, taken, password)
    requires (id, password) in before.accepted || EntryOf(before, id) == Known(taken)
    ensures Sound(hash, Saved(before, id, taken))
  {
    var after := Saved(before, id, taken);
    forall other | other in after.ledger
      ensures Backed(hash, after, other)
    {
      if other == id && (id, password) in before.accepted {
        assert Verified(hash, after, id, password);
      } else {
        assert Backed(hash, before, other);
        var p :| (other, p) in before.accepted && Verified(hash, before, other, p);
        assert Verified(hash, after, other, p);
      }
    }
  }

  lemma SoundCreate(hash: Hash, before: Site, name: string, fields: Object, password: string)
    requires Sound(hash, before)
    ensures Sound(hash, Created(before, name, fields, password))
  {
    var after := Created(before, name, fields, password);
    forall id | id in after.ledger
      ensures Backed(hash, after, id)
    {
      assert Backed(hash, before, id);
      var p :| (id, p) in before.accepted && Verified(hash, before, id, p);
      assert (id, p) in after.accepted && Verified(hash, after, id, p);
    }
  }

  /** Writes an existing account, and its fingerprint after the write was answered. */
  method WriteAccount(hash: Hash, host: Host, i: nat, fields: Object, s: Spec, send: bool, taken: Fingerprint,
        ghost fold: Fold)
    returns (ok: bool)
    requires Sound(hash, host.site) && i < |host.site.users| && fold(host.site.users[i].name) == fold(s.name)
    requires s.password != "" ==> Verifies(hash, taken, s.password)
    requires send ==> s.password != ""
    requires !send && s.password != "" ==> EntryOf(host.site, host.site.users[i].id) == Known(taken)
    modifies host`site, host`requests
    ensures Sound(hash, host.site) && Touched(fold, old(host.site), host.site, s.name, i)
    ensures |host.site.users| == |old(host.site).users|
    ensures host.site.sent == old(host.site).sent + if send then multiset{old(host.site).users[i].id} else multiset{}
    ensures StaysInStep(hash, old(host.site), host.site, old(host.site).users[i].id, s.password, ok)
    ensures ok && s.password != "" ==> Verified(hash, host.site, host.site.users[i].id, s.password)
    ensures ok && send ==>
        host.site.users[i].id in host.site.passwords && host.site.passwords[host.site.users[i].id] == s.password
    ensures host.site.users[i].fields in {old(host.site).users[i].fields, old(host.site).users[i].fields + fields}
    ensures ok ==> host.site.users[i].fields == old(host.site).users[i].fields + fields
    ensures host.reliable ==> ok
    ensures host.requests == old(host.requests) + 1
  {
    ghost var before := host.site;
    ghost var id := before.users[i].id;
    var password := if send then s.password else "";
    UpdateTouches(hash, fold, before, i, fields, password, s.name);
    RequestTouches(hash, fold, before, i, password, s.name);
    ok := host.Update(i, fields, password);
    if ok && s.password != "" {
      ghost var written := host.site;
      SaveTouches(hash, fold, before, written, i, taken, s);
      ok := host.Save(host.site.users[i].id, taken);
    }
  }

  lemma UpdateTouches(hash: Hash, fold: Fold, before: Site, i: nat, fields: Object, password: string, name: string)
    requires Sound(hash, before) && i < |before.users| && fold(before.users[i].name) == fold(name)
    ensures
      var after := Updated(before, i, fields, password);
      Sound(hash, after) && Touched(fold, before, after, name, i)
  {
    SoundUpdate(hash, before, Updated(before, i, fields, password));
  }

  lemma RequestTouches(hash: Hash, fold: Fold, before: Site, i: nat, password: string, name: string)
    requires Sound(hash, before) && i < |before.users| && fold(before.users[i].name) == fold(name)
    ensures
      var refused := Requested(before, i, password);
      Sound(hash, refused) && Touched(fold, before, refused, name, i)
  {
    SoundUpdate(hash, before, Requested(before, i, password));
  }

  lemma SaveTouches(hash: Hash, fold: Fold, before: Site, written: Site, i: nat, taken: Fingerprint, s: Spec)
    requires Sound(hash, written) && i < |before.users| && i < |written.users|
    requires Touched(fold, before, written, s.name, i)
    requires Verifies(hash, taken, s.password)
    requires (written.users[i].id, s.password) in written.accepted
        || EntryOf(written, written.users[i].id) == Known(taken)
    ensures
      var after := Saved(written, written.users[i].id, taken);
      Sound(hash, after) && Touched(fold, before, after, s.name, i)
          && Verified(hash, after, written.users[i].id, s.password)
  {
    var after := Saved(written, written.users[i].id, taken);
    SoundSave(hash, written, written.users[i].id, taken, s.password);
    forall id | id != written.users[i].id
      ensures SameEntry(before, after, id)
    {
      assert SameEntry(before, written, id);
    }
  }

  /** Creates an account with its password, and records the fingerprint after the creation was answered. */
  method CreateAccount(hash: Hash, host: Host, fields: Object, s: Spec, record: bool,
        ghost fold: Fold) returns (ok: bool, id: nat)
    requires Sound(hash, host.site) && s.password != ""
    modifies host`site, host`requests
    ensures Sound(hash, host.site) && Touched(fold, old(host.site), host.site, s.name, |old(host.site).users|)
    ensures InStep(hash, host.site, old(host.site).nextId)
    ensures |host.site.users| > |old(host.site).users| ==> host.site.users[|old(host.site).users|].fields == fields
    ensures ok ==> |host.site.users| == |old(host.site).users| + 1
    ensures ok ==> host.site.users[|old(host.site).users|] == Account(s.name, id, fields)
    ensures ok ==> id in host.site.passwords && host.site.passwords[id] == s.password
    ensures ok && record ==> Verified(hash, host.site, id, s.password)
    ensures host.reliable ==> ok
    ensures host.requests == old(host.requests) + 1
  {
    ghost var before := host.site;
    SoundCreate(hash, before, s.name, fields, s.password);
    SoundUpdate(hash, before, Sending(before, before.nextId));
    NoStaleEntry(hash, before);
    ok, id := host.Create(s.name, fields, s.password);
    if ok && record {
      var taken := TakeFingerprint(hash, s.password, Unknown);
      SoundSave(hash, host.site, id, taken, s.password);
      ok := host.Save(id, taken);
    }
  }

  lemma LedgerIds(hash: Hash, site: Site, id: nat)
    requires Sound(hash, site) && id in site.ledger
    ensures id < site.nextId
  {
    assert Backed(hash, site, id);
  }

  /** The ledger has no fingerprint for an account that was never created. */
  lemma NoStaleEntry(hash: Hash, site: Site)
    requires Sound(hash, site)
    ensures site.nextId !in site.ledger
  {
    if site.nextId in site.ledger {
      LedgerIds(hash, site, site.nextId);
    }
  }

  // ---------------------------------------------------------------- the three adapters

  /** No password is declared, or the ledger verifies the declared one. */
  predicate KnownPassword(hash: Hash, fold: Fold, site: Site, s: Spec) {
    s.password == "" || Settled(hash, fold, site, s)
  }

  /** Nothing is to be done for the one account of the name. */
  predicate Idle(hash: Hash, adapter: Adapter, fold: Fold, site: Site, s: Spec) {
    var found := Find(fold, site.users, s.name);
    found.One? && AsWanted(adapter, site.users[found.index].fields, s) && KnownPassword(hash, fold, site, s)
  }

  /** What each adapter guarantees of one declared user, at every exit. */
  ghost predicate Handled(hash: Hash, fold: Fold, before: Site, after: Site, s: Spec, at: nat, ok: bool)
  {
    && Sound(hash, after) && Touched(fold, before, after, s.name, at)
    && (Settled(hash, fold, before, s) || s.password == "" ==> after.sent == before.sent)
    && (at < |before.users| ==> after.sent[before.users[at].id] <= before.sent[before.users[at].id] + 1)
    && StaysInStep(hash, before, after, PlaceId(before, at), s.password, ok)
    && (ok && s.password != "" ==>
        Settled(hash, fold, after, s) && (Settled(hash, fold, before, s) || Given(fold, after, s)))
  }

  /** An existing account of the name stays the only one; a created one becomes it. */
  lemma FoundAfter(fold: Fold, before: Site, after: Site, name: string, at: nat)
    requires Touched(fold, before, after, name, at)
    requires Find(fold, before.users, name) == One(at)
        || (Find(fold, before.users, name).Nothing? && at == |before.users|)
    ensures at < |after.users| ==> Find(fold, after.users, name) == One(at)
  {
    var previous, present := Keys(fold, before.users), Keys(fold, after.users);
    SearchMeans(previous, Key(fold, name));
    SearchMeans(present, Key(fold, name));
    if at < |after.users| {
      forall i | 0 <= i < |after.users|
        ensures Satisfies(present[i], Key(fold, name)) <==> i == at
      {
        KeyMeans(fold, after.users[i].name, name);
        if i != at {
          assert previous[i] == present[i];
        }
      }
    }
  }

  /** The fields are as they were, or all done; when the adapter succeeded they are done. */
  ghost predicate FieldsHandled(adapter: Adapter, before: Site, after: Site, s: Spec, at: nat, ok: bool) {
    at < |after.users| ==>
      var was := if at < |before.users| then before.users[at].fields else map[];
      && (after.users[at].fields == was || FieldsDone(adapter, was, s, after.users[at].fields))
      && (ok ==> FieldsDone(adapter, was, s, after.users[at].fields))
  }

  /** Audiobookshelf: an account that lacks something declared is patched. */
  method AudiobookshelfUser(hash: Hash, host: Host, s: Spec, current: Object, i: nat,
        ghost fold: Fold) returns (ok: bool)
    requires Sound(hash, host.site) && Find(fold, host.site.users, s.name) == One(i)
    requires current == host.site.users[i].fields
    modifies host`site, host`requests
    ensures Handled(hash, fold, old(host.site), host.site, s, i, ok)
    ensures ok ==>
        i < |host.site.users| && SharedMerge.Contains(Obj(host.site.users[i].fields), Obj(AudiobookshelfDeclared(s)))
    ensures FieldsHandled(Audiobookshelf, old(host.site), host.site, s, i, ok)
    ensures host.reliable ==> ok
    ensures AsWanted(Audiobookshelf, current, s) && KnownPassword(hash, fold, old(host.site), s) ==>
        ok && host.site == old(host.site)
    ensures host.requests == old(host.requests) +
        if AsWanted(Audiobookshelf, current, s) && KnownPassword(hash, fold, old(host.site), s) then 0 else 1
  {
    var declared := AudiobookshelfDeclared(s);
    AudiobookshelfDone(current, s, current + declared);
    if SharedMerge.Contains(Obj(current), Obj(declared)) {
      AudiobookshelfDone(current, s, current);
    }
    ok := WriteIfNeeded(hash, host, s, i, !SharedMerge.Contains(Obj(current), Obj(declared)), declared, fold);
  }

  /** Navidrome: an account that differs from its merge with the declaration is replaced by the merge. */
  method NavidromeUser(hash: Hash, host: Host, s: Spec, current: Object, i: nat, ghost fold: Fold) returns (ok: bool)
    requires Sound(hash, host.site) && Find(fold, host.site.users, s.name) == One(i)
    requires current == host.site.users[i].fields
    modifies host`site, host`requests
    ensures Handled(hash, fold, old(host.site), host.site, s, i, ok)
    ensures ok ==> i < |host.site.users|
    ensures ok ==> Ok(host.site.users[i].fields) == NavidromeDesired(current, s)
    ensures FieldsHandled(Navidrome, old(host.site), host.site, s, i, ok)
    ensures host.reliable && NavidromeDesired(current, s).Ok? ==> ok
    ensures AsWanted(Navidrome, current, s) && KnownPassword(hash, fold, old(host.site), s) ==>
        ok && host.site == old(host.site) && host.requests == old(host.requests)
    ensures old(host.requests) <= host.requests <= old(host.requests) + 1
  {
    var desired := NavidromeDesired(current, s);
    if desired.Err? {
      NothingHappened(hash, fold, host.site, s, i);
      return false;
    }
    NavidromeDone(current, s);
    assert current + desired.value == desired.value;
    ok := WriteIfNeeded(hash, host, s, i, desired.value != current, desired.value, fold);
  }

  lemma NothingHappened(hash: Hash, fold: Fold, site: Site, s: Spec, i: nat)
    requires Sound(hash, site) && Find(fold, site.users, s.name) == One(i)
    ensures Handled(hash, fold, site, site, s, i, false)
  {
    SearchMeans(Keys(fold, site.users), Key(fold, s.name));
    KeyMeans(fold, site.users[i].name, s.name);
  }

  /** One request for the fields and the password; the password is in it only if the ledger does not verify it. */
  method WriteIfNeeded(hash: Hash, host: Host, s: Spec, i: nat, differs: bool, fields: Object,
        ghost fold: Fold) returns (ok: bool)
    requires Sound(hash, host.site) && Find(fold, host.site.users, s.name) == One(i)
    modifies host`site, host`requests
    ensures Handled(hash, fold, old(host.site), host.site, s, i, ok)
    ensures i < |host.site.users|
    ensures !differs && KnownPassword(hash, fold, old(host.site), s) ==> ok && host.site == old(host.site)
    ensures host.requests == old(host.requests) +
        if !differs && KnownPassword(hash, fold, old(host.site), s) then 0 else 1
    ensures ok && differs ==> host.site.users[i].fields == old(host.site).users[i].fields + fields
    ensures host.site.users[i].fields in {old(host.site).users[i].fields, old(host.site).users[i].fields + fields}
    ensures host.reliable ==> ok
  {
    ghost var before := host.site;
    NothingHappened(hash, fold, before, s, i);
    var id := host.site.users[i].id;
    var taken := Fingerprint("", "");
    var send := false;
    if s.password != "" {
      taken := TakeFingerprint(hash, s.password, EntryOf(host.site, id));
      send := EntryOf(host.site, id) != Known(taken);
    }
    ok := true;
    if differs || send {
      ok := WriteAccount(hash, host, i, fields, s, send, taken, fold);
      FoundAfter(fold, before, host.site, s.name, i);
    }
  }

  /** Jellyfin: the policy and the password are separate requests. */
  method JellyfinUser(hash: Hash, host: Host, s: Spec, current: Object, i: nat, ghost fold: Fold) returns (ok: bool)
    requires Sound(hash, host.site) && Find(fold, host.site.users, s.name) == One(i)
    requires current == host.site.users[i].fields
    modifies host`site, host`requests
    ensures Handled(hash, fold, old(host.site), host.site, s, i, ok)
    ensures ok ==> i < |host.site.users| && Ok(host.site.users[i].fields) == JellyfinDesired(current, s)
    ensures FieldsHandled(Jellyfin, old(host.site), host.site, s, i, ok)
    ensures host.reliable && JellyfinDesired(current, s).Ok? ==> ok
    ensures AsWanted(Jellyfin, current, s) && KnownPassword(hash, fold, old(host.site), s) ==>
        ok && host.site == old(host.site) && host.requests == old(host.requests)
    ensures old(host.requests) <= host.requests <= old(host.requests) +
        (if AsWanted(Jellyfin, current, s) then 0 else 1) +
        (if KnownPassword(hash, fold, old(host.site), s) then 0 else 1)
  {
    ghost var before := host.site;
    NothingHappened(hash, fold, before, s, i);
    var merged := SharedMerge.Merge(current, s.values);
    if merged.Err? {
      return false;
    }
    var policy := Policy(merged.value, s);
    PolicyCovers(current, s);
    JellyfinDone(current, s);
    ok := SetPolicy(hash, host, s, current, i, policy, fold);
    if !ok {
      return;
    }
    ghost var middle := host.site;
    ok := WriteIfNeeded(hash, host, s, i, false, map[], fold);
    PolicyThenPassword(hash, fold, before, middle, host.site, s, i, ok);
  }

  lemma PolicyCovers(current: Object, s: Spec)
    requires SharedMerge.Merge(current, s.values).Ok?
    ensures
      var policy := Policy(SharedMerge.Merge(current, s.values).value, s);
      current + policy == policy && policy + map[] == policy
  {
    var policy := Policy(SharedMerge.Merge(current, s.values).value, s);
    assert current.Keys <= policy.Keys;
  }

  method SetPolicy(hash: Hash, host: Host, s: Spec, current: Object, i: nat, policy: Object,
        ghost fold: Fold) returns (ok: bool)
    requires Sound(hash, host.site) && Find(fold, host.site.users, s.name) == One(i)
    requires current == host.site.users[i].fields
    requires current + policy == policy
    modifies host`site, host`requests
    ensures PolicySet(hash, fold, old(host.site), host.site, s, i)
    ensures !ok ==> Handled(hash, fold, old(host.site), host.site, s, i, false)
    ensures host.site.users[i].fields in {current, policy} && (ok ==> host.site.users[i].fields == policy)
    ensures host.reliable ==> ok
    ensures policy == current ==> ok && host.site == old(host.site)
    ensures host.requests == old(host.requests) + if policy == current then 0 else 1
  {
    ghost var before := host.site;
    NothingHappened(hash, fold, before, s, i);
    ok := true;
    if policy != current {
      UpdateTouches(hash, fold, before, i, policy, "", s.name);
      RequestTouches(hash, fold, before, i, "", s.name);
      ok := host.Update(i, policy, "");
      FoundAfter(fold, before, host.site, s.name, i);
    }
  }

  /** The fields changed at most; no password was sent and no fingerprint taken. */
  ghost predicate PolicySet(hash: Hash, fold: Fold, before: Site, after: Site, s: Spec, i: nat) {
    && Sound(hash, after) && Touched(fold, before, after, s.name, i) && |after.users| == |before.users|
    && i < |after.users|
    && after.sent == before.sent && after.ledger == before.ledger
    && Find(fold, before.users, s.name) == One(i) && Find(fold, after.users, s.name) == One(i)
  }

  lemma PolicyThenPassword(hash: Hash, fold: Fold, before: Site, middle: Site, after: Site, s: Spec, i: nat, ok: bool)
    requires PolicySet(hash, fold, before, middle, s, i) && Handled(hash, fold, middle, after, s, i, ok)
    ensures Handled(hash, fold, before, after, s, i, ok)
  {
    TouchedTwice(fold, before, middle, after, s.name, i);
  }

  lemma TouchedTwice(fold: Fold, a: Site, b: Site, c: Site, name: string, at: nat)
    requires Touched(fold, a, b, name, at) && Touched(fold, b, c, name, at) && at < |b.users|
    ensures Touched(fold, a, c, name, at)
  {
    forall id | id != c.users[at].id
      ensures SameEntry(a, c, id)
    {
      assert SameEntry(a, b, id) && SameEntry(b, c, id);
    }
  }

  /** A missing account is created with its password, or not at all. */
  method CreateMissing(hash: Hash, host: Host, adapter: Adapter, s: Spec, ghost fold: Fold) returns (ok: bool)
    requires Sound(hash, host.site) && Find(fold, host.site.users, s.name).Nothing?
    modifies host`site, host`requests
    ensures Handled(hash, fold, old(host.site), host.site, s, |old(host.site).users|, ok)
    ensures FieldsHandled(adapter, old(host.site), host.site, s, |old(host.site).users|, ok)
    ensures ok ==> s.password != "" && Settled(hash, fold, host.site, s)
    ensures ok ==>
      var at := |old(host.site).users|;
      at < |host.site.users| && Ok(host.site.users[at].fields) == Desired(adapter, map[], s)
    ensures host.reliable && s.password != "" && Desired(adapter, map[], s).Ok? ==> ok
    ensures old(host.requests) <= host.requests <= old(host.requests) + 3
  {
    ghost var before := host.site;
    ghost var at := |before.users|;
    var fields := NewFields(adapter, s);
    if s.password == "" || fields.Err? {
      return false;
    }
    if !adapter.Jellyfin? {
      DesiredIsDone(adapter, map[], s);
    }
    var id;
    ok, id := CreateAccount(hash, host, fields.value, s, !adapter.Jellyfin?, fold);
    ghost var created := host.site;
    FoundAfter(fold, before, created, s.name, at);
    if ok && adapter.Jellyfin? {
      ok := JellyfinUser(hash, host, s, map[], |host.site.users| - 1, fold);
      ThenHandled(hash, fold, before, created, host.site, s, ok);
    }
  }

  /** Creation and what follows, taken together. */
  lemma ThenHandled(hash: Hash, fold: Fold, before: Site, created: Site, after: Site, s: Spec, ok: bool)
    requires Find(fold, before.users, s.name).Nothing? && s.password != "" && |created.users| == |before.users| + 1
    requires Touched(fold, before, created, s.name, |before.users|) && Given(fold, created, s)
    requires InStep(hash, created, before.nextId)
    requires Handled(hash, fold, created, after, s, |before.users|, ok)
    ensures Handled(hash, fold, before, after, s, |before.users|, ok)
  {
    var at := |before.users|;
    TouchedTwice(fold, before, created, after, s.name, at);
    FoundAfter(fold, before, created, s.name, at);
    FoundAfter(fold, before, after, s.name, at);
  }

  /** Only a request can stop the run at this user: the name is unambiguous, and the declaration can be merged. */
  predicate Ready(adapter: Adapter, fold: Fold, users: seq<Account>, bootstrap: bool, s: Spec) {
    match Find(fold, users, s.name)
    case Many => false
    case Nothing => s.password != "" && Desired(adapter, map[], s).Ok?
    case One(i) => bootstrap || Desired(adapter, users[i].fields, s).Ok?
  }

  method ReconcileUser(hash: Hash, host: Host, adapter: Adapter, fold: Fold, users: seq<Account>, bootstrap: bool,
        s: Spec)
    returns (ok: bool, ghost at: nat)
    requires Sound(hash, host.site) && Listed(fold, users, host.site, s)
    modifies host`site, host`requests
    ensures Handled(hash, fold, old(host.site), host.site, s, at, ok && !(bootstrap && Find(fold, users, s.name).One?))
    ensures FieldsHandled(adapter, old(host.site), host.site, s, at,
        ok && !(bootstrap && Find(fold, users, s.name).One?))
    ensures Find(fold, users, s.name).Many? ==> host.site == old(host.site)
    ensures at == PlaceOf(fold, old(host.site).users, s.name)
    ensures bootstrap && Find(fold, users, s.name).One? ==> host.site == old(host.site)
    ensures ok ==> Ready(adapter, fold, users, bootstrap, s) && Find(fold, host.site.users, s.name) == One(at)
    ensures host.reliable && Ready(adapter, fold, users, bootstrap, s) ==> ok
    ensures Idle(hash, adapter, fold, old(host.site), s) || (bootstrap && Find(fold, users, s.name).One?) ==>
        ok && host.site == old(host.site) && host.requests == old(host.requests)
    ensures old(host.requests) <= host.requests <= old(host.requests) + 3
  {
    var found := Find(fold, users, s.name);
    at := if found.One? then found.index else |host.site.users|;
    ghost var before := host.site;
    match found
    case Many =>
      ok := false;
    case Nothing =>
      ok := CreateMissing(hash, host, adapter, s, fold);
      FoundAfter(fold, before, host.site, s.name, at);
    case One(i) =>
      NothingHappened(hash, fold, host.site, s, i);
      if bootstrap {
        return true, at;
      }
      match adapter {
        case Jellyfin => ok := JellyfinUser(hash, host, s, users[i].fields, i, fold);
        case Audiobookshelf => ok := AudiobookshelfUser(hash, host, s, users[i].fields, i, fold);
        case Navidrome => ok := NavidromeUser(hash, host, s, users[i].fields, i, fold);
      }
      FoundAfter(fold, before, host.site, s.name, at);
  }

  /** The listing read at the start still shows the account of this name as it is. */
  ghost predicate Listed(fold: Fold, users: seq<Account>, site: Site, s: Spec) {
    && Find(fold, users, s.name) == Find(fold, site.users, s.name)
    && (Find(fold, users, s.name).One? ==>
        users[Find(fold, users, s.name).index] == site.users[Find(fold, users, s.name).index])
  }

  // ---------------------------------------------------------------- all users

  predicate Distinct(fold: Fold, specs: seq<Spec>) {
    forall j, k | 0 <= j < k < |specs| :: fold(specs[j].name) != fold(specs[k].name)
  }

  /** Accounts of another name are where they were, and nowhere else. */
  lemma OtherAt(fold: Fold, before: Site, after: Site, name: string, at: nat, other: string, i: nat)
    requires Touched(fold, before, after, name, at) && fold(other) != fold(name) && i < |after.users|
    ensures Satisfies(Keys(fold, after.users)[i], Key(fold, other)) <==>
      i != at && i < |before.users| && Satisfies(Keys(fold, before.users)[i], Key(fold, other))
  {
    KeyMeans(fold, after.users[i].name, other);
    if i < |before.users| {
      KeyMeans(fold, before.users[i].name, other);
    }
  }

  lemma OtherFound(fold: Fold, before: Site, after: Site, name: string, at: nat, other: string)
    requires Touched(fold, before, after, name, at) && fold(other) != fold(name)
    ensures Find(fold, after.users, other) == Find(fold, before.users, other)
    ensures Find(fold, before.users, other).One? ==> at >= |after.users| || Find(fold, before.users, other).index != at
  {
    var previous, present := Keys(fold, before.users), Keys(fold, after.users);
    var pattern := Key(fold, other);
    forall i: nat
      ensures (i < |present| && Satisfies(present[i], pattern)) <==> (i < |previous| && Satisfies(previous[i], pattern))
    {
      if i < |present| {
        OtherAt(fold, before, after, name, at, other, i);
        if i < |previous| {
          KeyMeans(fold, before.users[i].name, other);
        }
      }
    }
    SearchSame(present, previous, pattern);
    SearchMeans(previous, pattern);
    if at < |previous| && at < |present| {
      KeyMeans(fold, before.users[at].name, other);
    }
  }

  /** A step for one account is not felt by a declaration for another. */
  lemma OtherSpec(hash: Hash, fold: Fold, before: Site, after: Site, s: Spec, at: nat, other: Spec)
    requires Sound(hash, before) && Sound(hash, after) && Touched(fold, before, after, s.name, at)
    requires fold(other.name) != fold(s.name)
    ensures Unmoved(fold, before, after, other)
  {
    OtherFound(fold, before, after, s.name, at, other.name);
  }

  /** The account of a declaration, its fingerprint and its password are the same. */
  ghost predicate Unmoved(fold: Fold, before: Site, after: Site, s: Spec) {
    var found := Find(fold, before.users, s.name);
    && Find(fold, after.users, s.name) == found
    && (found.One? ==>
        after.users[found.index] == before.users[found.index] && SameEntry(before, after, before.users[found.index].id))
  }

  lemma UnmovedMeans(hash: Hash, fold: Fold, a: Site, b: Site, s: Spec)
    requires Unmoved(fold, a, b, s)
    ensures Settled(hash, fold, a, s) <==> Settled(hash, fold, b, s)
    ensures Given(fold, a, s) <==> Given(fold, b, s)
  {
  }

  /**
   * What a run keeps of the account that a declaration had at its start: its place and id, and if the ledger verified
   * the password or none is declared, that no password is sent for it; otherwise at most one is.
   */
  ghost predicate Spared(hash: Hash, fold: Fold, start: Site, site: Site, s: Spec) {
    var found := Find(fold, start.users, s.name);
    found.One? ==>
      && Find(fold, site.users, s.name) == found && site.users[found.index].id == start.users[found.index].id
      && var id := start.users[found.index].id;
         && site.sent[id] <= start.sent[id] + 1
         && (Settled(hash, fold, start, s) || s.password == "" ==> site.sent[id] == start.sent[id])
  }

  /**
   * The ledger verifies the declared password. The server holds that password, too, unless the ledger had verified
   * it at the start and the server held another one already then.
   */
  predicate Finished(hash: Hash, fold: Fold, start: Site, site: Site, s: Spec) {
    && Settled(hash, fold, site, s)
    && (Given(fold, site, s) <==> !Settled(hash, fold, start, s) || Given(fold, start, s))
  }

  /** The account is identical, with its fingerprint and password. */
  predicate AccountKept(start: Site, site: Site, i: nat)
    requires i < |start.users|
  {
    i < |site.users| && site.users[i] == start.users[i] && SameEntry(start, site, start.users[i].id)
  }

  predicate Named(fold: Fold, specs: seq<Spec>, name: string) {
    exists k | 0 <= k < |specs| :: fold(specs[k].name) == fold(name)
  }

  /** The accounts that the run may not change: undeclared ones, and in bootstrap mode all. */
  predicate KeptAccounts(fold: Fold, start: Site, site: Site, specs: seq<Spec>, bootstrap: bool) {
    forall i | 0 <= i < |start.users| && (bootstrap || !Named(fold, specs, start.users[i].name)) ::
      AccountKept(start, site, i)
  }

  ghost predicate AllInStep(hash: Hash, site: Site) {
    forall id :: InStep(hash, site, id)
  }

  /** The ledger is in step, except for a declared password that the server took before the run failed. */
  ghost predicate InStepUpTo(hash: Hash, site: Site, specs: seq<Spec>, ok: bool) {
    forall id :: InStep(hash, site, id) ||
      (!ok && exists k | 0 <= k < |specs| :: Unrecorded(hash, site, id, specs[k].password))
  }

  /** What holds at every exit of a run, and what holds of the first n declarations if it came to there. */
  ghost predicate AtExit(hash: Hash, fold: Fold, start: Site, site: Site, specs: seq<Spec>, bootstrap: bool) {
    && Sound(hash, site) && start.accepted <= site.accepted
    && (forall k | 0 <= k < |specs| :: Spared(hash, fold, start, site, specs[k]))
    && KeptAccounts(fold, start, site, specs, bootstrap)
    && (AllSettled(hash, fold, start, specs) ==> site.sent == start.sent)
  }

  /** Where the account of the name is, or would be added. */
  function PlaceOf(fold: Fold, users: seq<Account>, name: string): nat {
    if Find(fold, users, name).One? then Find(fold, users, name).index else |users|
  }

  predicate AllSettled(hash: Hash, fold: Fold, site: Site, specs: seq<Spec>) {
    forall k | 0 <= k < |specs| && specs[k].password != "" :: Settled(hash, fold, site, specs[k])
  }

  ghost predicate UsersSoFar(hash: Hash, fold: Fold, start: Site, site: Site, users: seq<Account>, specs: seq<Spec>,
        n: nat, bootstrap: bool) {
    && AtExit(hash, fold, start, site, specs, bootstrap)
    && (AllInStep(hash, start) ==> AllInStep(hash, site))
    && (forall k | n <= k < |specs| :: Unmoved(fold, start, site, specs[k]) && Listed(fold, users, site, specs[k]))
    && (forall k | 0 <= k < n && k < |specs| :: Done(hash, fold, start, site, specs[k], bootstrap))
  }

  /** A declaration that a run came past has its one account, and in managed mode its password. */
  predicate Done(hash: Hash, fold: Fold, start: Site, site: Site, s: Spec, bootstrap: bool) {
    && Find(fold, site.users, s.name).One?
    && (!bootstrap && s.password != "" ==> Finished(hash, fold, start, site, s))
  }

  lemma OtherSpared(hash: Hash, fold: Fold, start: Site, before: Site, after: Site, s: Spec, at: nat, other: Spec,
        bootstrap: bool)
    requires Sound(hash, before) && Sound(hash, after) && Touched(fold, before, after, s.name, at)
    requires fold(other.name) != fold(s.name)
    ensures Spared(hash, fold, start, before, other) ==> Spared(hash, fold, start, after, other)
    ensures Done(hash, fold, start, before, other, bootstrap) ==> Done(hash, fold, start, after, other, bootstrap)
  {
    OtherSpec(hash, fold, before, after, s, at, other);
    UnmovedMeans(hash, fold, before, after, other);
  }

  /** The step for the n-th declaration, seen from it. */
  lemma OwnSpared(hash: Hash, fold: Fold, start: Site, before: Site, after: Site, s: Spec, at: nat, ok: bool)
    requires Unmoved(fold, start, before, s) && Handled(hash, fold, before, after, s, at, ok)
    requires Find(fold, before.users, s.name).One? ==> at == Find(fold, before.users, s.name).index
    ensures Spared(hash, fold, start, after, s)
    ensures ok && s.password != "" ==> Finished(hash, fold, start, after, s)
  {
    UnmovedMeans(hash, fold, start, before, s);
    if Find(fold, before.users, s.name).One? {
      FoundAfter(fold, before, after, s.name, at);
    }
  }

  lemma AccountStays(hash: Hash, fold: Fold, start: Site, before: Site, after: Site, name: string, at: nat, i: nat)
    requires Sound(hash, before) && Touched(fold, before, after, name, at)
    requires i < |start.users| && AccountKept(start, before, i) && i != at
    ensures AccountKept(start, after, i)
  {
    var id := before.users[i].id;
    assert id != PlaceId(before, at);
    assert SameEntry(before, after, id) && SameEntry(start, before, id);
  }

  lemma AccountsStay(hash: Hash, fold: Fold, start: Site, before: Site, after: Site, s: Spec, at: nat,
        specs: seq<Spec>, bootstrap: bool)
    requires Sound(hash, before) && KeptAccounts(fold, start, before, specs, bootstrap)
    requires s in specs && Touched(fold, before, after, s.name, at)
    requires bootstrap ==> at == |before.users| || after == before
    ensures KeptAccounts(fold, start, after, specs, bootstrap)
  {
    forall i | 0 <= i < |start.users| && (bootstrap || !Named(fold, specs, start.users[i].name))
      ensures AccountKept(start, after, i)
    {
      assert AccountKept(start, before, i);
      if after != before {
        assert at != i;
        AccountStays(hash, fold, start, before, after, s.name, at, i);
      }
    }
  }

  lemma StepsInStep(hash: Hash, fold: Fold, before: Site, after: Site, specs: seq<Spec>, n: nat, at: nat, ok: bool)
    requires n < |specs| && Handled(hash, fold, before, after, specs[n], at, ok) && AllInStep(hash, before)
    ensures InStepUpTo(hash, after, specs, ok)
  {
    forall id
      ensures InStep(hash, after, id) ||
          (!ok && exists k | 0 <= k < |specs| :: Unrecorded(hash, after, id, specs[k].password))
    {
      assert InStep(hash, before, id);
      if id != PlaceId(before, at) {
        assert SameEntry(before, after, id);
      }
    }
  }

  /** The step for the n-th declaration, seen from all the others and the rest of the server. */
  lemma UsersStep(hash: Hash, fold: Fold, start: Site, before: Site, after: Site, users: seq<Account>,
        specs: seq<Spec>, n: nat, at: nat, bootstrap: bool, handled: bool)
    requires Distinct(fold, specs) && n < |specs|
    requires UsersSoFar(hash, fold, start, before, users, specs, n, bootstrap)
    requires Handled(hash, fold, before, after, specs[n], at, handled)
    requires at == PlaceOf(fold, before.users, specs[n].name)
    requires bootstrap && Find(fold, before.users, specs[n].name).One? ==> after == before
    ensures AtExit(hash, fold, start, after, specs, bootstrap)
    ensures AllInStep(hash, start) ==> InStepUpTo(hash, after, specs, handled)
    ensures forall k | n < k < |specs| :: Unmoved(fold, start, after, specs[k]) && Listed(fold, users, after, specs[k])
    ensures forall k | 0 <= k < n :: Done(hash, fold, start, after, specs[k], bootstrap)
    ensures handled && specs[n].password != "" ==> Finished(hash, fold, start, after, specs[n])
  {
    forall k | 0 <= k < |specs| && k != n
      ensures Spared(hash, fold, start, after, specs[k])
      ensures n < k ==> Unmoved(fold, start, after, specs[k]) && Listed(fold, users, after, specs[k])
      ensures k < n ==> Done(hash, fold, start, after, specs[k], bootstrap)
    {
      OtherSpec(hash, fold, before, after, specs[n], at, specs[k]);
      OtherSpared(hash, fold, start, before, after, specs[n], at, specs[k], bootstrap);
    }
    OwnSpared(hash, fold, start, before, after, specs[n], at, handled);
    UnmovedMeans(hash, fold, start, before, specs[n]);
    AccountsStay(hash, fold, start, before, after, specs[n], at, specs, bootstrap);
    if AllInStep(hash, start) {
      StepsInStep(hash, fold, before, after, specs, n, at, handled);
    }
  }

  /** The same for the run as a whole; in bootstrap mode an account that exists is not handled, but passed over. */
  lemma UsersNext(hash: Hash, fold: Fold, start: Site, before: Site, after: Site, users: seq<Account>,
        specs: seq<Spec>, n: nat, at: nat, bootstrap: bool, ok: bool)
    requires Distinct(fold, specs) && n < |specs|
    requires UsersSoFar(hash, fold, start, before, users, specs, n, bootstrap)
    requires
      var passed := bootstrap && Find(fold, users, specs[n].name).One?;
      Handled(hash, fold, before, after, specs[n], at, ok && !passed) && (passed ==> after == before)
    requires at == PlaceOf(fold, before.users, specs[n].name)
    requires ok ==> Find(fold, after.users, specs[n].name).One?
    ensures AtExit(hash, fold, start, after, specs, bootstrap)
    ensures AllInStep(hash, start) ==> InStepUpTo(hash, after, specs, ok)
    ensures ok ==> UsersSoFar(hash, fold, start, after, users, specs, n + 1, bootstrap)
  {
    var passed := bootstrap && Find(fold, users, specs[n].name).One?;
    UsersStep(hash, fold, start, before, after, users, specs, n, at, bootstrap, ok && !passed);
    if ok {
      StillInStep(hash, start, before, after, specs, passed);
      OneMore(hash, fold, start, after, users, specs, n, bootstrap);
    }
  }

  lemma StillInStep(hash: Hash, start: Site, before: Site, after: Site, specs: seq<Spec>, passed: bool)
    requires AllInStep(hash, start) ==> AllInStep(hash, before)
    requires if passed then after == before else AllInStep(hash, start) ==> InStepUpTo(hash, after, specs, true)
    ensures AllInStep(hash, start) ==> AllInStep(hash, after) && InStepUpTo(hash, after, specs, true)
  {
  }

  lemma OneMore(hash: Hash, fold: Fold, start: Site, site: Site, users: seq<Account>, specs: seq<Spec>, n: nat,
        bootstrap: bool)
    requires n < |specs| && AtExit(hash, fold, start, site, specs, bootstrap)
    requires AllInStep(hash, start) ==> AllInStep(hash, site)
    requires forall k | n < k < |specs| :: Unmoved(fold, start, site, specs[k]) && Listed(fold, users, site, specs[k])
    requires forall k | 0 <= k < n :: Done(hash, fold, start, site, specs[k], bootstrap)
    requires Done(hash, fold, start, site, specs[n], bootstrap)
    ensures UsersSoFar(hash, fold, start, site, users, specs, n + 1, bootstrap)
  {
  }

  // ---------------------------------------------------------------- the fields of all users

  /** The fields that the account of the name had at the start, or none. */
  function FieldsAt(fold: Fold, site: Site, name: string): Object {
    var found := Find(fold, site.users, name);
    if found.One? then site.users[found.index].fields else map[]
  }

  /** The fields of the declared account are those of the start or done; once the run is past it, they are done. */
  ghost predicate FieldsServed(adapter: Adapter, fold: Fold, start: Site, site: Site, s: Spec, past: bool) {
    var found := Find(fold, site.users, s.name);
    var was := FieldsAt(fold, start, s.name);
    && (found.One? ==>
      site.users[found.index].fields == was || FieldsDone(adapter, was, s, site.users[found.index].fields))
    && (past ==> found.One? && FieldsDone(adapter, was, s, site.users[found.index].fields))
  }

  /** The first declarations are past, except that in bootstrap mode existing accounts are left alone. */
  ghost predicate FieldsSoFar(adapter: Adapter, fold: Fold, start: Site, site: Site, specs: seq<Spec>, n: nat,
        bootstrap: bool) {
    forall k | 0 <= k < |specs| ::
      FieldsServed(adapter, fold, start, site, specs[k],
        k < n && !(bootstrap && Find(fold, start.users, specs[k].name).One?))
  }

  lemma OwnFields(adapter: Adapter, fold: Fold, start: Site, before: Site, after: Site, s: Spec, at: nat, past: bool)
    requires Unmoved(fold, start, before, s) && Touched(fold, before, after, s.name, at)
    requires at == PlaceOf(fold, before.users, s.name)
    requires FieldsHandled(adapter, before, after, s, at, past)
    requires Find(fold, before.users, s.name).Many? ==> after == before && !past
    requires past ==> Find(fold, after.users, s.name).One?
    ensures FieldsServed(adapter, fold, start, after, s, past)
  {
    var found := Find(fold, before.users, s.name);
    if !found.Many? {
      FoundAfter(fold, before, after, s.name, at);
      if at >= |after.users| {
        assert after.users == before.users;
      }
    }
  }

  lemma OtherFields(hash: Hash, adapter: Adapter, fold: Fold, start: Site, before: Site, after: Site, s: Spec, at: nat,
        other: Spec, past: bool)
    requires Sound(hash, before) && Sound(hash, after) && Touched(fold, before, after, s.name, at)
    requires fold(other.name) != fold(s.name) && FieldsServed(adapter, fold, start, before, other, past)
    ensures FieldsServed(adapter, fold, start, after, other, past)
  {
    OtherSpec(hash, fold, before, after, s, at, other);
  }

  lemma FieldsStep(hash: Hash, adapter: Adapter, fold: Fold, start: Site, before: Site, after: Site,
        specs: seq<Spec>, n: nat, at: nat, bootstrap: bool, ok: bool)
    requires Sound(hash, before) && Sound(hash, after) && Distinct(fold, specs) && n < |specs|
    requires FieldsSoFar(adapter, fold, start, before, specs, n, bootstrap) && Unmoved(fold, start, before, specs[n])
    requires Touched(fold, before, after, specs[n].name, at) && at == PlaceOf(fold, before.users, specs[n].name)
    requires FieldsHandled(adapter, before, after, specs[n], at,
        ok && !(bootstrap && Find(fold, start.users, specs[n].name).One?))
    requires Find(fold, before.users, specs[n].name).Many? ==> after == before && !ok
    requires ok ==> Find(fold, after.users, specs[n].name).One?
    ensures FieldsSoFar(adapter, fold, start, after, specs, if ok then n + 1 else n, bootstrap)
  {
    forall k | 0 <= k < |specs|
      ensures FieldsServed(adapter, fold, start, after, specs[k],
          (k < n || (k == n && ok)) && !(bootstrap && Find(fold, start.users, specs[k].name).One?))
    {
      var passed := bootstrap && Find(fold, start.users, specs[k].name).One?;
      if k == n {
        OwnFields(adapter, fold, start, before, after, specs[n], at, ok && !passed);
      } else {
        OtherFields(hash, adapter, fold, start, before, after, specs[n], at, specs[k], k < n && !passed);
      }
    }
  }

  predicate AllReady(adapter: Adapter, fold: Fold, users: seq<Account>, specs: seq<Spec>, bootstrap: bool) {
    specs == [] ||
    (AllReady(adapter, fold, users, specs[..|specs| - 1], bootstrap)
     && Ready(adapter, fold, users, bootstrap, specs[|specs| - 1]))
  }

  lemma {:induction false} ReadyAt(adapter: Adapter, fold: Fold, users: seq<Account>, specs: seq<Spec>,
        bootstrap: bool, n: nat)
    requires n < |specs| && AllReady(adapter, fold, users, specs, bootstrap)
    ensures Ready(adapter, fold, users, bootstrap, specs[n])
  {
    if n < |specs| - 1 {
      ReadyAt(adapter, fold, users, specs[..|specs| - 1], bootstrap, n);
    }
  }

  predicate AllDone(hash: Hash, fold: Fold, start: Site, site: Site, specs: seq<Spec>, bootstrap: bool) {
    forall k | 0 <= k < |specs| :: Done(hash, fold, start, site, specs[k], bootstrap)
  }

  predicate AllIdle(hash: Hash, adapter: Adapter, fold: Fold, site: Site, specs: seq<Spec>) {
    forall k | 0 <= k < |specs| :: Idle(hash, adapter, fold, site, specs[k])
  }

  /** If nothing is to be done for any declaration, nothing was sent. */
  predicate Restful(hash: Hash, adapter: Adapter, fold: Fold, start: Site, site: Site, specs: seq<Spec>, sent: nat,
        requests: nat) {
    sent <= requests && (AllIdle(hash, adapter, fold, start, specs) ==> site == start && requests == sent)
  }

  lemma IdleAt(hash: Hash, adapter: Adapter, fold: Fold, start: Site, site: Site, specs: seq<Spec>, n: nat, sent: nat,
        requests: nat)
    requires Restful(hash, adapter, fold, start, site, specs, sent, requests) && n < |specs|
    ensures AllIdle(hash, adapter, fold, start, specs) ==>
        site == start && requests == sent && Idle(hash, adapter, fold, site, specs[n])
  {
  }

  method ReconcileNext(hash: Hash, host: Host, adapter: Adapter, fold: Fold, users: seq<Account>, specs: seq<Spec>,
        n: nat, bootstrap: bool, ghost start: Site, ghost sent: nat)
    returns (ok: bool)
    requires Distinct(fold, specs) && n < |specs|
    requires UsersSoFar(hash, fold, start, host.site, users, specs, n, bootstrap)
    requires FieldsSoFar(adapter, fold, start, host.site, specs, n, bootstrap)
    requires Restful(hash, adapter, fold, start, host.site, specs, sent, host.requests)
    modifies host`site, host`requests
    ensures FieldsSoFar(adapter, fold, start, host.site, specs, if ok then n + 1 else n, bootstrap)
    ensures AtExit(hash, fold, start, host.site, specs, bootstrap)
    ensures AllInStep(hash, start) ==> InStepUpTo(hash, host.site, specs, ok)
    ensures ok ==> UsersSoFar(hash, fold, start, host.site, users, specs, n + 1, bootstrap)
    ensures ok ==> Ready(adapter, fold, users, bootstrap, specs[n])
    ensures host.reliable && Ready(adapter, fold, users, bootstrap, specs[n]) ==> ok
    ensures Restful(hash, adapter, fold, start, host.site, specs, sent, host.requests)
    ensures AllIdle(hash, adapter, fold, start, specs) ==> ok
  {
    ghost var before := host.site;
    IdleAt(hash, adapter, fold, start, before, specs, n, sent, host.requests);
    ghost var at;
    ok, at := ReconcileUser(hash, host, adapter, fold, users, bootstrap, specs[n]);
    UsersNext(hash, fold, start, before, host.site, users, specs, n, at, bootstrap, ok);
    FieldsStep(hash, adapter, fold, start, before, host.site, specs, n, at, bootstrap, ok);
  }

  lemma ReadyNext(adapter: Adapter, fold: Fold, users: seq<Account>, specs: seq<Spec>, n: nat, bootstrap: bool)
    requires n < |specs|
    ensures AllReady(adapter, fold, users, specs[..n + 1], bootstrap) <==>
        AllReady(adapter, fold, users, specs[..n], bootstrap) && Ready(adapter, fold, users, bootstrap, specs[n])
    ensures AllReady(adapter, fold, users, specs, bootstrap) ==> Ready(adapter, fold, users, bootstrap, specs[n])
  {
    assert specs[..n + 1][..n] == specs[..n];
    if AllReady(adapter, fold, users, specs, bootstrap) {
      ReadyAt(adapter, fold, users, specs, bootstrap, n);
    }
  }

  /** A run that has not begun. */
  lemma NoUsersYet(hash: Hash, fold: Fold, site: Site, specs: seq<Spec>, bootstrap: bool)
    requires Sound(hash, site)
    ensures UsersSoFar(hash, fold, site, site, site.users, specs, 0, bootstrap)
    ensures AllInStep(hash, site) ==> InStepUpTo(hash, site, specs, true)
  {
  }

  lemma NoFieldsYet(adapter: Adapter, fold: Fold, site: Site, specs: seq<Spec>, bootstrap: bool)
    ensures FieldsSoFar(adapter, fold, site, site, specs, 0, bootstrap)
  {
  }

  lemma AllUsersDone(hash: Hash, fold: Fold, start: Site, site: Site, users: seq<Account>, specs: seq<Spec>,
        bootstrap: bool)
    requires UsersSoFar(hash, fold, start, site, users, specs, |specs|, bootstrap)
    ensures AllDone(hash, fold, start, site, specs, bootstrap)
    ensures AllInStep(hash, start) ==> InStepUpTo(hash, site, specs, true)
  {
  }

  /**
   * All declared users of one run. At every exit the fingerprints are backed by accepted passwords, no password is
   * sent again for an account whose fingerprint verifies the declared one, whatever becomes of the others, and
   * undeclared accounts are identical. A reliable run succeeds exactly if every declaration is ready. A finished
   * managed run has given every changed password to the server, and the ledger, if it was in step, is in step again.
   */
  method ReconcileUsers(hash: Hash, host: Host, adapter: Adapter, fold: Fold, bootstrap: bool,
        specs: seq<Spec>) returns (ok: bool)
    requires Sound(hash, host.site) && Distinct(fold, specs)
    modifies host`site, host`requests
    ensures AtExit(hash, fold, old(host.site), host.site, specs, bootstrap)
    ensures ok ==> AllReady(adapter, fold, old(host.site).users, specs, bootstrap)
    ensures ok ==> AllDone(hash, fold, old(host.site), host.site, specs, bootstrap)
    ensures FieldsSoFar(adapter, fold, old(host.site), host.site, specs, if ok then |specs| else 0, bootstrap)
    ensures host.reliable && AllReady(adapter, fold, old(host.site).users, specs, bootstrap) ==> ok
    ensures AllInStep(hash, old(host.site)) ==> InStepUpTo(hash, host.site, specs, ok)
    ensures Restful(hash, adapter, fold, old(host.site), host.site, specs, old(host.requests), host.requests)
    ensures AllIdle(hash, adapter, fold, old(host.site), specs) ==> ok
  {
    var users := host.site.users;
    NoUsersYet(hash, fold, host.site, specs, bootstrap);
    NoFieldsYet(adapter, fold, host.site, specs, bootstrap);
    ok := true;
    for n := 0 to |specs|
      invariant ok && UsersSoFar(hash, fold, old(host.site), host.site, users, specs, n, bootstrap)
      invariant FieldsSoFar(adapter, fold, old(host.site), host.site, specs, n, bootstrap)
      invariant AllReady(adapter, fold, users, specs[..n], bootstrap)
      invariant Restful(hash, adapter, fold, old(host.site), host.site, specs, old(host.requests), host.requests)
    {
      ReadyNext(adapter, fold, users, specs, n, bootstrap);
      ok := ReconcileNext(hash, host, adapter, fold, users, specs, n, bootstrap, old(host.site), old(host.requests));
      if !ok {
        return;
      }
    }
    AllUsersDone(hash, fold, old(host.site), host.site, users, specs, bootstrap);
    assert specs[..|specs|] == specs;
  }

  predicate Plain(specs: seq<Spec>) {
    forall k | 0 <= k < |specs| :: SharedMerge.FieldsFree(specs[k].values)
  }

  /** What a finished managed run leaves is settled; without `fields` objects there is nothing to be done. */
  lemma DoneRests(hash: Hash, adapter: Adapter, fold: Fold, start: Site, site: Site, specs: seq<Spec>)
    requires AllDone(hash, fold, start, site, specs, false)
    requires FieldsSoFar(adapter, fold, start, site, specs, |specs|, false)
    ensures AllSettled(hash, fold, site, specs)
    ensures Plain(specs) ==> AllIdle(hash, adapter, fold, site, specs)
  {
    forall k | 0 <= k < |specs|
      ensures specs[k].password != "" ==> Settled(hash, fold, site, specs[k])
      ensures Plain(specs) ==> Idle(hash, adapter, fold, site, specs[k])
    {
      assert Done(hash, fold, start, site, specs[k], false);
      assert FieldsServed(adapter, fold, start, site, specs[k], true);
    }
  }

  /**
   * After a finished managed run, the next run with the same declarations sends no password, even if it is cut off;
   * and if no declaration holds a `fields` object it sends nothing at all.
   */
  method RunTwice(hash: Hash, host: Host, adapter: Adapter, fold: Fold, specs: seq<Spec>)
    returns (first: bool, second: bool, resent: bool, again: nat)
    requires Sound(hash, host.site) && Distinct(fold, specs)
    modifies host`site, host`requests
    ensures Sound(hash, host.site)
    ensures first ==> !resent
    ensures second ==> AllSettled(hash, fold, host.site, specs)
    ensures host.reliable && AllReady(adapter, fold, old(host.site).users, specs, false) ==> first
    ensures first && Plain(specs) ==> second && again == 0
  {
    ghost var start := host.site;
    first := ReconcileUsers(hash, host, adapter, fold, false, specs);
    if first {
      DoneRests(hash, adapter, fold, start, host.site, specs);
    }
    var sent, requests := host.site.sent, host.requests;
    start := host.site;
    second := ReconcileUsers(hash, host, adapter, fold, false, specs);
    if second {
      DoneRests(hash, adapter, fold, start, host.site, specs);
    }
    resent, again := host.site.sent != sent, host.requests - requests;
  }

  // ---------------------------------------------------------------- a lost answer

  /**
   * How ledger and server part. The ledger knows the first password, and the server takes the second, but its answer
   * is lost. If the first is declared again the fingerprint verifies it: the state is sound and the account counts as
   * settled, so nothing is sent, and the server keeps the second.
   */
  lemma LostAnswer(hash: Hash, fold: Fold, first: string, second: string)
    requires Injective(hash) && first != second && first != "" && second != ""
    ensures
      var taken := Fingerprint("s", hash("s", first));
      var site := Site([Account("a", 0, map[])], 1, map[0 := first], {(0, first)}, map[0 := taken], multiset{});
      var after := Updated(site, 0, map[], second);
      var s := Spec("a", map[], first);
      && Sound(hash, site) && AllInStep(hash, site)
      && Sound(hash, after) && !InStep(hash, after, 0) && Unrecorded(hash, after, 0, second)
      && Settled(hash, fold, after, s) && !Given(fold, after, s)
  {
    var taken := Fingerprint("s", hash("s", first));
    var site := Site([Account("a", 0, map[])], 1, map[0 := first], {(0, first)}, map[0 := taken], multiset{});
    var after := Updated(site, 0, map[], second);
    assert (0, first) in site.accepted && Verified(hash, site, 0, first);
    SoundUpdate(hash, site, after);
    assert hash("s", first) != hash("s", second);
    SearchMeans(Keys(fold, after.users), Key(fold, "a"));
    KeyMeans(fold, after.users[0].name, "a");
  }

  /**
   * The exact condition: after a finished managed run the server holds the declared password if and only if the
   * ledger had not verified it at the start, or was in step with the server for this account then.
   */
  lemma HeldExactly(hash: Hash, fold: Fold, start: Site, site: Site, s: Spec)
    requires Injective(hash) && s.password != "" && Done(hash, fold, start, site, s, false)
    ensures Given(fold, site, s) <==>
      !Settled(hash, fold, start, s) ||
      InStep(hash, start, start.users[Find(fold, start.users, s.name).index].id)
  {
    if Settled(hash, fold, start, s) {
      InStepMeansGiven(hash, fold, start, s);
    }
  }
}
