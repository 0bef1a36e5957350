/**
 * The autobrr server as the adapter sees it: three tables of JSON objects, requests that may fail before or after
 * their effect, and the searches by name that identify resources.
 */
module AutobrrServer {
  import opened AutobrrMatch
  import opened Faults
  import opened JsonValues
  import opened Objects

  datatype World = World(clients: seq<Object>, filters: seq<Object>, actions: seq<Object>, indexers: seq<Object>,
      nextId: nat)

  datatype Kind = Clients | Filters | Actions

  function Table(w: World, kind: Kind): seq<Object> {
    match kind
    case Clients => w.clients
    case Filters => w.filters
    case Actions => w.actions
  }

  function With(w: World, kind: Kind, objects: seq<Object>): World {
    match kind
    case Clients => w.(clients := objects)
    case Filters => w.(filters := objects)
    case Actions => w.(actions := objects)
  }

  function Id(o: Object): Json {
    Get(o, "id")
  }

  function Name(o: Object): Json {
    Get(o, "name")
  }

  /** The object has one of the names. */
  predicate Named(o: Object, names: set<string>) {
    Name(o).Str? && Name(o).s in names
  }

  function ById(id: Json): Object {
    map["id" := id]
  }

  function ByName(name: string): Object {
    map["name" := Str(name)]
  }

  /** Only clients carry secrets, which the server hides. */
  function Shown(kind: Kind, o: Object): Object {
    if kind.Clients? then Redact(o) else o
  }

  function Posted(w: World, kind: Kind, body: Object): World {
    With(w, kind, Table(w, kind) + [body["id" := Num(w.nextId)]]).(nextId := w.nextId + 1)
  }

  function Replace(w: World, kind: Kind, i: nat, o: Object): World
    requires i < |Table(w, kind)|
  {
    With(w, kind, Table(w, kind)[i := o])
  }

  function PutBody(kind: Kind, stored: Object, body: Object): Object {
    if kind.Clients? then Keep(stored, body) else body
  }

  /** The actions of one filter. */
  function ActionsOf(actions: seq<Object>, id: Json): (own: seq<Object>)
    ensures forall j | 0 <= j < |own| :: Get(own[j], "filter_id") == id
  {
    if actions == [] then []
    else
      var last := actions[|actions| - 1];
      ActionsOf(actions[..|actions| - 1], id) + if Get(last, "filter_id") == id then [last] else []
  }

  /** An action as the filter detail lists it. */
  function Listed(action: Object): Object {
    action - {"filter_id"}
  }

  // ---------------------------------------------------------------- requests

  class Server {
    var world: World

    /** Whether every request is answered from here on. */
    var reliable: bool

    /** How many requests that change something were sent. */
    var writes: nat

    constructor (world: World, reliable: bool)
      ensures this.world == world && this.reliable == reliable && writes == 0
    {
      this.world, this.reliable, this.writes := world, reliable, 0;
    }

    method List(kind: Kind) returns (ok: bool, objects: seq<Object>)
      ensures reliable ==> ok
      ensures ok ==> |objects| == |Table(world, kind)|
      ensures ok ==> forall i | 0 <= i < |objects| :: objects[i] == Shown(kind, Table(world, kind)[i])
    {
      var done;
      done, ok := Luck(reliable);
      var table := Table(world, kind);
      objects := if ok then seq(|table|, i requires 0 <= i < |table| => Shown(kind, table[i])) else [];
    }

    method Indexers() returns (ok: bool, objects: seq<Object>)
      ensures reliable ==> ok
      ensures ok ==> objects == world.indexers
    {
      var done;
      done, ok := Luck(reliable);
      objects := world.indexers;
    }

    /** The filter detail, with its actions. */
    method Detail(id: Json) returns (ok: bool, filter: Object, actions: seq<Object>)
      ensures var found := Search(world.filters, ById(id));
        && (reliable && found.One? ==> ok)
        && (ok ==> found.One? && filter == world.filters[found.index])
      ensures ok ==> |actions| == |ActionsOf(world.actions, id)|
      ensures ok ==> forall i | 0 <= i < |actions| :: actions[i] == Listed(ActionsOf(world.actions, id)[i])
    {
      var done;
      done, ok := Luck(reliable);
      var found := Search(world.filters, ById(id));
      ok := ok && found.One?;
      filter := if ok then world.filters[found.index] else map[];
      var own := ActionsOf(world.actions, id);
      actions := seq(|own|, i requires 0 <= i < |own| => Listed(own[i]));
    }

    method Post(kind: Kind, body: Object) returns (ok: bool, saved: Object)
      modifies `world, `writes
      ensures writes == old(writes) + 1
      ensures reliable ==> ok
      ensures ok ==>
          world == Posted(old(world), kind, body) && saved == Shown(kind, body["id" := Num(old(world).nextId)])
      ensures world == old(world) || world == Posted(old(world), kind, body)
    {
      writes := writes + 1;
      var done;
      done, ok := Luck(reliable);
      saved := Shown(kind, body["id" := Num(world.nextId)]);
      if done {
        world := Posted(world, kind, body);
      }
    }

    method Put(kind: Kind, id: Json, body: Object) returns (ok: bool, saved: Object)
      modifies `world, `writes
      ensures writes == old(writes) + 1
      ensures var found := Search(Table(old(world), kind), ById(id));
        && (reliable && found.One? ==> ok)
        && (ok ==> found.One?)
        && (found.One? ==>
            var stored := PutBody(kind, Table(old(world), kind)[found.index], body);
            && (ok ==> world == Replace(old(world), kind, found.index, stored) && saved == Shown(kind, stored))
            && (world == old(world) || world == Replace(old(world), kind, found.index, stored)))
        && (!found.One? ==> world == old(world))
    {
      writes := writes + 1;
      var done;
      done, ok := Luck(reliable);
      var found := Search(Table(world, kind), ById(id));
      saved := map[];
      if !found.One? {
        return false, saved;
      }
      var stored := PutBody(kind, Table(world, kind)[found.index], body);
      saved := Shown(kind, stored);
      if done {
        world := Replace(world, kind, found.index, stored);
      }
    }

    /** Overwrites some keys of a filter. */
    method Patch(id: Json, body: Object) returns (ok: bool)
      modifies `world, `writes
      ensures writes == old(writes) + 1
      ensures var found := Search(old(world).filters, ById(id));
        && (reliable && found.One? ==> ok)
        && (ok ==> found.One?)
        && (found.One? ==>
            var patched := Replace(old(world), Filters, found.index, old(world).filters[found.index] + body);
            (ok ==> world == patched) && (world == old(world) || world == patched))
        && (!found.One? ==> world == old(world))
    {
      writes := writes + 1;
      var done;
      done, ok := Luck(reliable);
      var found := Search(world.filters, ById(id));
      if !found.One? {
        return false;
      }
      if done {
        world := Replace(world, Filters, found.index, world.filters[found.index] + body);
      }
    }
  }

  // ---------------------------------------------------------------- well-formed tables

  /** Objects have names and distinct ids, all given out before. */
  predicate Regular(objects: seq<Object>, nextId: nat) {
    && (forall i | 0 <= i < |objects| :: Name(objects[i]).Str? && Id(objects[i]).Num? && 0 <= Id(objects[i]).n < nextId)
    && (forall i, j | 0 <= i < j < |objects| :: Id(objects[i]) != Id(objects[j]))
  }

  /** The server's tables are regular, clients have a type, and actions refer to ids given out before. */
  predicate Sound(w: World) {
    && Regular(w.clients, w.nextId) && Regular(w.filters, w.nextId) && Regular(w.actions, w.nextId)
    && (forall i | 0 <= i < |w.clients| :: Get(w.clients[i], "type").Str?)
    && (forall i | 0 <= i < |w.actions| ::
        Get(w.actions[i], "filter_id").Num? && Get(w.actions[i], "filter_id").n < w.nextId)
  }

  /** Searching by name, spelled out. */
  lemma NameMeans(o: Object, name: string)
    ensures Satisfies(o, ByName(name)) <==> Name(o) == Str(name)
  {
    assert "name" in ByName(name);
  }

  lemma IdFinds(objects: seq<Object>, nextId: nat, i: nat)
    requires Regular(objects, nextId) && i < |objects|
    ensures Search(objects, ById(Id(objects[i]))) == One(i)
  {
    var pattern := ById(Id(objects[i]));
    forall j | 0 <= j < |objects|
      ensures Satisfies(objects[j], pattern) <==> j == i
    {
      assert "id" in pattern;
    }
    SearchMeans(objects, pattern);
  }

  /** Two lists with the same names at the same places are searched alike. */
  lemma SameNames(a: seq<Object>, b: seq<Object>, name: string)
    requires |a| == |b| && forall i | 0 <= i < |a| :: Name(a[i]) == Name(b[i])
    ensures Search(a, ByName(name)) == Search(b, ByName(name))
  {
    SearchMeans(a, ByName(name));
    SearchMeans(b, ByName(name));
    forall i | 0 <= i < |a|
      ensures Satisfies(a[i], ByName(name)) <==> Satisfies(b[i], ByName(name))
    {
      NameMeans(a[i], name);
      NameMeans(b[i], name);
    }
  }

  /** After one object of a pattern was replaced by another, or the first was appended, the search finds it. */
  lemma SearchFinds(before: seq<Object>, after: seq<Object>, i: nat, pattern: Object)
    requires (Replaced(before, after, i) && Search(before, pattern) == One(i))
        || (Appended(before, after) && i == |before| && Search(before, pattern).Nothing?)
    requires Satisfies(after[i], pattern)
    ensures Search(after, pattern) == One(i)
  {
    SearchMeans(before, pattern);
    SearchMeans(after, pattern);
    forall j | 0 <= j < |after| && j != i
      ensures !Satisfies(after[j], pattern)
    {
      assert after[j] == before[j];
    }
  }

  // ---------------------------------------------------------------- the actions of one filter

  lemma {:induction false} ActionsFrom(actions: seq<Object>, id: Json, j: nat) returns (i: nat)
    requires j < |ActionsOf(actions, id)|
    ensures i < |actions| && actions[i] == ActionsOf(actions, id)[j]
  {
    var last := |actions| - 1;
    if j < |ActionsOf(actions[..last], id)| {
      i := ActionsFrom(actions[..last], id, j);
    } else {
      i := last;
    }
  }

  /** Replacing an action of a filter replaces it in that filter's list and changes no other list. */
  lemma {:induction false} ActionsPut(actions: seq<Object>, i: nat, o: Object, id: Json) returns (k: nat)
    requires i < |actions| && Get(actions[i], "filter_id") == id && Get(o, "filter_id") == id
    ensures k < |ActionsOf(actions, id)| && ActionsOf(actions, id)[k] == actions[i]
    ensures ActionsOf(actions[i := o], id) == ActionsOf(actions, id)[k := o]
    ensures forall other | other != id :: ActionsOf(actions[i := o], other) == ActionsOf(actions, other)
  {
    var last := |actions| - 1;
    var after := actions[i := o];
    if i == last {
      assert after[..last] == actions[..last];
      k := |ActionsOf(actions[..last], id)|;
    } else {
      assert after[..last] == actions[..last][i := o];
      k := ActionsPut(actions[..last], i, o, id);
    }
  }

  lemma ActionsPost(actions: seq<Object>, o: Object, id: Json)
    requires Get(o, "filter_id") == id
    ensures ActionsOf(actions + [o], id) == ActionsOf(actions, id) + [o]
    ensures forall other | other != id :: ActionsOf(actions + [o], other) == ActionsOf(actions, other)
  {
    assert (actions + [o])[..|actions|] == actions;
  }

  /** A fresh id has no actions yet. */
  lemma {:induction false} NoActions(actions: seq<Object>, id: Json)
    requires forall i | 0 <= i < |actions| :: Get(actions[i], "filter_id") != id
    ensures ActionsOf(actions, id) == []
  {
    if actions != [] {
      NoActions(actions[..|actions| - 1], id);
    }
  }
}
