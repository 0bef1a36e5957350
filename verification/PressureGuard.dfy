/**
 * The storage-pressure guard: a flag with two thresholds, and downloads that the guard stops and starts again by a
 * journal of what it stopped itself. Users change the queues at will, requests fail, and a run can die anywhere.
 */
module PressureGuard {

  // ---------------------------------------------------------------- the flag

  datatype Limits = Limits(pauseBytes: int, resumeBytes: int)

  /** A reading of the download directory. */
  datatype Reading = Unmounted | Unreadable | Available(bytes: int)

  predicate Pressured(limits: Limits, reading: Reading, previous: bool) {
    reading.Available? ==> reading.bytes < if previous then limits.resumeBytes else limits.pauseBytes
  }

  /** The flag after a sequence of runs that wrote their journal. */
  function Flag(limits: Limits, readings: seq<Reading>): bool {
    readings != [] && Pressured(limits, readings[|readings| - 1], Flag(limits, readings[..|readings| - 1]))
  }

  /** Below the lower limit, or nothing to read. */
  predicate Low(limits: Limits, reading: Reading) {
    reading.Available? ==> reading.bytes < limits.pauseBytes
  }

  predicate High(limits: Limits, reading: Reading) {
    reading.Available? && reading.bytes >= limits.resumeBytes
  }

  /** The last reading that is low or high was a low one. */
  predicate LastDecisiveLow(limits: Limits, readings: seq<Reading>) {
    exists i | 0 <= i < |readings| :: Low(limits, readings[i]) && forall j | i < j < |readings| ::
        !High(limits, readings[j])
  }

  lemma LastDecisiveStep(limits: Limits, readings: seq<Reading>)
    requires readings != []
    ensures
      var last := |readings| - 1;
      LastDecisiveLow(limits, readings) <==>
        Low(limits, readings[last]) || (LastDecisiveLow(limits, readings[..last]) && !High(limits, readings[last]))
  {
    var last := |readings| - 1;
    var before := readings[..last];
    assert forall j | 0 <= j < last :: before[j] == readings[j];
    if Low(limits, readings[last]) {
      assert LastDecisiveLow(limits, readings);
    }
    if LastDecisiveLow(limits, before) && !High(limits, readings[last]) {
      var i :| 0 <= i < last && Low(limits, before[i]) && forall j | i < j < last :: !High(limits, before[j]);
      assert Low(limits, readings[i]);
    }
    if LastDecisiveLow(limits, readings) {
      var i :| 0 <= i < |readings| && Low(limits, readings[i]) && forall j | i < j < |readings| ::
          !High(limits, readings[j]);
      if i < last {
        assert Low(limits, before[i]);
      }
    }
  }

  /** Hysteresis, characterised: the flag says what the last decisive reading said. */
  lemma {:induction false} FlagMeans(limits: Limits, readings: seq<Reading>)
    requires limits.pauseBytes <= limits.resumeBytes
    ensures Flag(limits, readings) <==> LastDecisiveLow(limits, readings)
  {
    if readings != [] {
      FlagMeans(limits, readings[..|readings| - 1]);
      LastDecisiveStep(limits, readings);
    }
  }

  /** Repeating a reading never changes the flag again, exactly when the limits are in order. */
  lemma SteadyReadings(limits: Limits)
    ensures limits.pauseBytes <= limits.resumeBytes <==>
      forall reading, flag ::
        Pressured(limits, reading, Pressured(limits, reading, flag)) == Pressured(limits, reading, flag)
  {
    if limits.pauseBytes > limits.resumeBytes {
      var reading := Available(limits.resumeBytes);
      assert Pressured(limits, reading, Pressured(limits, reading, false)) != Pressured(limits, reading, false);
    }
  }

  // ---------------------------------------------------------------- the history

  datatype Event =
    | Listed(torrents: map<string, string>)
    | Stopped(hashes: set<string>)
    | Started(hashes: set<string>)
    | Paused
    | Resumed
    | Journalled(journal: Journal)

  datatype Journal = Journal(pressured: bool, torrents: set<string>, queue: bool)

  const DOWNLOADING: set<string> := {"downloading", "stalledDL", "queuedDL", "metaDL", "forcedDL", "allocating"}

  function Downloading(torrents: map<string, string>): set<string> {
    set h | h in torrents && torrents[h] in DOWNLOADING
  }

  function StoppedIn(torrents: map<string, string>): set<string> {
    set h | h in torrents && torrents[h] == "stoppedDL"
  }

  function HeldAfter(held: set<string>, event: Event): set<string> {
    match event
    case Stopped(hashes) => held + hashes
    case Journalled(journal) => held * journal.torrents
    case _ => held
  }

  /** The torrents that the guard stopped and has not journalled as released since. */
  function Held(log: seq<Event>): set<string> {
    if log == [] then {} else HeldAfter(Held(log[..|log| - 1]), log[|log| - 1])
  }

  function HeldQueueAfter(held: bool, event: Event): bool {
    match event
    case Paused => true
    case Journalled(journal) => held && journal.queue
    case _ => held
  }

  /** Whether the guard paused the queue and has not journalled its release since. */
  function HeldQueue(log: seq<Event>): bool {
    log != [] && HeldQueueAfter(HeldQueue(log[..|log| - 1]), log[|log| - 1])
  }

  predicate StopsAt(log: seq<Event>, i: nat, h: string)
    requires i < |log|
  {
    log[i].Stopped? && h in log[i].hashes
  }

  /** Held torrents, spelled out over the history. */
  lemma {:induction false} HeldMeans(log: seq<Event>, h: string)
    ensures h in Held(log) <==>
      exists i | 0 <= i < |log| :: StopsAt(log, i, h) && forall j | i < j < |log| && log[j].Journalled? ::
          h in log[j].journal.torrents
  {
    if log != [] {
      var last := |log| - 1;
      HeldMeans(log[..last], h);
      if h in Held(log[..last]) && h in Held(log) {
        var i :| 0 <= i < last && StopsAt(log[..last], i, h) &&
          forall j | i < j < last && log[..last][j].Journalled? :: h in log[..last][j].journal.torrents;
        assert forall j | i < j < last :: log[..last][j] == log[j];
        assert StopsAt(log, i, h);
      } else if h in Held(log) {
        assert StopsAt(log, last, h);
      }
      if exists i | 0 <= i < |log| :: StopsAt(log, i, h) && forall j | i < j < |log| && log[j].Journalled? ::
          h in log[j].journal.torrents {
        var i :| 0 <= i < |log| && StopsAt(log, i, h) && forall j | i < j < |log| && log[j].Journalled? ::
            h in log[j].journal.torrents;
        if i < last {
          assert forall j | i < j < last :: log[..last][j] == log[j];
          assert StopsAt(log[..last], i, h);
        }
      }
    }
  }

  /** Only downloading torrents are stopped, and only held ones that are still stopped are started. */
  ghost predicate OwnedOnly(log: seq<Event>) {
    forall i | 0 <= i < |log| :: EventOwned(log, i)
  }

  ghost predicate EventOwned(log: seq<Event>, i: nat)
    requires i < |log|
  {
    match log[i]
    case Stopped(hashes) =>
      hashes != {} && i > 0 && log[i - 1].Listed? && hashes <= Downloading(log[i - 1].torrents)
    case Started(hashes) =>
      && hashes != {} && i > 0 && log[i - 1].Listed? && hashes <= StoppedIn(log[i - 1].torrents)
      && hashes <= Held(log[..i])
    case Resumed => HeldQueue(log[..i])
    case _ => true
  }

  // ---------------------------------------------------------------- what a run makes of the downloads

  /** Under pressure whatever downloads is stopped; otherwise what is owned and still stopped runs again. */
  function StateAfter(pressure: bool, owned: bool, state: string): string {
    if pressure then
      if state == "downloading" || state == "stalledDL" || state == "queuedDL" || state == "metaDL"
          || state == "forcedDL" || state == "allocating"
      then "stoppedDL"
      else state
    else if owned && state == "stoppedDL" then "downloading"
    else state
  }

  function TorrentsAfter(pressure: bool, owned: set<string>, torrents: map<string, string>): map<string, string> {
    map h | h in torrents :: StateAfter(pressure, h in owned, torrents[h])
  }

  /** What is owned afterwards: under pressure also what was stopped, otherwise nothing. */
  function OwnedAfter(pressure: bool, owned: set<string>, torrents: map<string, string>): set<string> {
    if pressure then owned + set h | h in torrents && StateAfter(true, false, torrents[h]) != torrents[h]
    else {}
  }

  /** The torrents are as they were, or as an undisturbed turn leaves them. */
  predicate Between(pressure: bool, owned: set<string>, before: map<string, string>, now: map<string, string>) {
    now == before || now == TorrentsAfter(pressure, owned, before)
  }

  /** The torrents and what is owned of them, after a turn that nothing disturbed. */
  predicate TorrentsTaken(pressure: bool, owned: set<string>, before: map<string, string>, now: map<string, string>,
        next: set<string>)
  {
    now == TorrentsAfter(pressure, owned, before) && next == OwnedAfter(pressure, owned, before)
  }

  predicate QueueTaken(pressure: bool, owned: bool, before: bool, now: bool, next: bool) {
    if pressure then now && (next <==> owned || !before) else !next && (now <==> before && !owned)
  }

  function WithState(torrents: map<string, string>, hashes: set<string>, state: string): map<string, string> {
    map h | h in torrents :: if h in hashes then state else torrents[h]
  }

  lemma StoppedAll(torrents: map<string, string>, owned: set<string>)
    ensures WithState(torrents, Downloading(torrents), "stoppedDL") == TorrentsAfter(true, owned, torrents)
    ensures Downloading(torrents) == {} ==> TorrentsAfter(true, owned, torrents) == torrents
  {
    forall h | h in torrents
      ensures StateAfter(true, h in owned, torrents[h]) ==
          if h in Downloading(torrents) then "stoppedDL" else torrents[h]
    {
    }
  }

  lemma OwnedAll(torrents: map<string, string>, owned: set<string>)
    ensures owned + Downloading(torrents) == OwnedAfter(true, owned, torrents)
  {
  }

  lemma StartedAll(torrents: map<string, string>, owned: set<string>)
    ensures WithState(torrents, owned * StoppedIn(torrents), "downloading") == TorrentsAfter(false, owned, torrents)
    ensures owned * StoppedIn(torrents) == {} ==> TorrentsAfter(false, owned, torrents) == torrents
  {
    forall h | h in torrents
      ensures StateAfter(false, h in owned, torrents[h]) ==
          if h in owned * StoppedIn(torrents) then "downloading" else torrents[h]
    {
    }
  }

  /** A further turn of the same client changes nothing. */
  lemma TakenTwice(pressure: bool, owned: set<string>, before: map<string, string>, now: map<string, string>,
        next: set<string>, last: map<string, string>, still: set<string>)
    requires TorrentsTaken(pressure, owned, before, now, next) && TorrentsTaken(pressure, next, now, last, still)
    ensures last == now && still == next
  {
  }

  lemma AfterAgain(pressure: bool, owned: set<string>, next: set<string>, torrents: map<string, string>)
    requires pressure || next in {owned, {}}
    ensures
      var after := TorrentsAfter(pressure, owned, torrents);
      TorrentsAfter(pressure, next, after) == after
    ensures TorrentsAfter(pressure, next, torrents) in {torrents, TorrentsAfter(pressure, owned, torrents)}
  {
    var after := TorrentsAfter(pressure, owned, torrents);
    assert forall h | h in torrents :: TorrentsAfter(pressure, next, after)[h] == after[h];
    if pressure || next == owned {
      assert TorrentsAfter(pressure, next, torrents) == after;
    } else {
      assert TorrentsAfter(pressure, next, torrents) == torrents;
    }
  }

  /** A turn after others of one run leaves the torrents as one turn might have. */
  lemma BetweenTwice(pressure: bool, owned: set<string>, next: set<string>, before: map<string, string>,
        now: map<string, string>, last: map<string, string>)
    requires Between(pressure, owned, before, now) && Between(pressure, next, now, last)
    requires pressure || next in {owned, {}}
    ensures Between(pressure, owned, before, last)
  {
    AfterAgain(pressure, owned, next, before);
  }

  // ---------------------------------------------------------------- the guard

  datatype Client = Torrents | Queue

  datatype Exit = Done | Failed | Killed

  class Guard {
    const limits: Limits
    var torrents: map<string, string>
    var paused: bool
    var journal: Journal

    /** Whether requests succeed and the process survives. */
    var reliable: bool

    /** How many requests have failed. */
    ghost var faults: nat

    ghost var log: seq<Event>
    ghost var readings: seq<Reading>

    ghost predicate Valid()
      reads this
    {
      && OwnedOnly(log) && journal.torrents <= Held(log) && (journal.queue ==> HeldQueue(log))
      && journal.pressured == Flag(limits, readings)
    }

    constructor (limits: Limits, torrents: map<string, string>, paused: bool)
      ensures Valid() && this.limits == limits && this.torrents == torrents && this.paused == paused && !reliable
      ensures journal == Journal(false, {}, false) && log == [] && readings == []
    {
      this.limits, this.torrents, this.paused, this.reliable := limits, torrents, paused, false;
      this.journal := Journal(false, {}, false);
      this.log, this.readings, this.faults := [], [], 0;
    }

    /** Users and other programs do what they like with the queues. */
    method Interfere()
      modifies `torrents, `paused, `reliable
    {
      torrents, paused, reliable := *, *, *;
    }

    method Luck() returns (exit: Exit)
      modifies `faults
      ensures reliable ==> exit.Done?
      ensures faults == old(faults) + if exit.Failed? then 1 else 0
    {
      exit := *;
      if reliable {
        exit := Done;
      }
      if exit.Failed? {
        faults := faults + 1;
      }
    }

    ghost method Note(event: Event)
      requires OwnedOnly(log) && EventOwned(log + [event], |log|)
      modifies `log
      ensures OwnedOnly(log) && log == old(log) + [event]
    {
      LogGrows(log, event);
      log := log + [event];
    }

    /** Stopping takes effect on the torrents that still exist; a request without an answer may have had its effect. */
    method Stop(hashes: set<string>) returns (exit: Exit)
      requires OwnedOnly(log) && hashes != {}
      requires log != [] && log[|log| - 1].Listed? && hashes <= Downloading(log[|log| - 1].torrents)
      modifies `torrents, `log, `faults
      ensures OwnedOnly(log) && (reliable ==> exit.Done?)
      ensures faults == old(faults) + if exit.Failed? then 1 else 0
      ensures torrents == old(torrents) || torrents == WithState(old(torrents), hashes, "stoppedDL")
      ensures exit.Done? ==> torrents == WithState(old(torrents), hashes, "stoppedDL")
      ensures log == if exit.Done? then old(log) + [Stopped(hashes)] else old(log)
    {
      exit := Luck();
      var done: bool := *;
      if done || exit.Done? {
        torrents := WithState(torrents, hashes, "stoppedDL");
      }
      if exit.Done? {
        Note(Stopped(hashes));
      }
    }

    method Start(hashes: set<string>) returns (exit: Exit)
      requires OwnedOnly(log) && hashes != {} && hashes <= Held(log)
      requires log != [] && log[|log| - 1].Listed? && hashes <= StoppedIn(log[|log| - 1].torrents)
      modifies `torrents, `log, `faults
      ensures OwnedOnly(log) && (reliable ==> exit.Done?)
      ensures faults == old(faults) + if exit.Failed? then 1 else 0
      ensures torrents == old(torrents) || torrents == WithState(old(torrents), hashes, "downloading")
      ensures exit.Done? ==> torrents == WithState(old(torrents), hashes, "downloading")
      ensures log == old(log) + [Started(hashes)]
    {
      assert (log + [Started(hashes)])[..|log|] == log;
      Note(Started(hashes));
      exit := Luck();
      var done: bool := *;
      if done || exit.Done? {
        torrents := WithState(torrents, hashes, "downloading");
      }
    }

    /** Under pressure: what is downloading is stopped, and owned besides what is owned already. */
    method StopDownloads(owned: set<string>) returns (exit: Exit, next: set<string>)
      requires OwnedOnly(log) && owned <= Held(log) && log != [] && log[|log| - 1] == Listed(torrents)
      modifies `torrents, `log, `faults
      ensures OwnedOnly(log) && Held(old(log)) <= Held(log) && HeldQueue(log) == HeldQueue(old(log))
      ensures old(log) <= log && (reliable ==> exit.Done?)
      ensures exit.Done? ==> next <= Held(log) && TorrentsTaken(true, owned, old(torrents), torrents, next)
      ensures !exit.Done? ==> next == owned
      ensures Between(true, owned, old(torrents), torrents)
      ensures faults == old(faults) + if exit.Failed? then 1 else 0
    {
      exit, next := Done, owned;
      StoppedAll(torrents, owned);
      OwnedAll(torrents, owned);
      var active := Downloading(torrents);
      if active != {} {
        exit := Stop(active);
        StopHeld(log, old(log), active);
        if !exit.Done? {
          return;
        }
      }
      next := owned + active;
    }

    /** Without pressure: what is owned and still stopped is started, and nothing stays owned. */
    method StartOwned(owned: set<string>) returns (exit: Exit, next: set<string>)
      requires OwnedOnly(log) && owned <= Held(log) && log != [] && log[|log| - 1] == Listed(torrents)
      modifies `torrents, `log, `faults
      ensures OwnedOnly(log) && Held(old(log)) <= Held(log) && HeldQueue(log) == HeldQueue(old(log))
      ensures old(log) <= log && (reliable ==> exit.Done?)
      ensures exit.Done? ==> next <= Held(log) && TorrentsTaken(false, owned, old(torrents), torrents, next)
      ensures !exit.Done? ==> next == owned
      ensures Between(false, owned, old(torrents), torrents)
      ensures faults == old(faults) + if exit.Failed? then 1 else 0
    {
      exit, next := Done, owned;
      StartedAll(torrents, owned);
      var resume := owned * StoppedIn(torrents);
      if resume != {} {
        exit := Start(resume);
        StartHeld(old(log), resume);
        if !exit.Done? {
          return;
        }
      }
      next := {};
    }

    /** The torrent client: what is downloading is stopped and owned; what is owned and still stopped is started. */
    method ReconcileTorrents(pressure: bool, owned: set<string>) returns (exit: Exit, next: set<string>)
      requires OwnedOnly(log) && owned <= Held(log)
      modifies `torrents, `log, `faults
      ensures OwnedOnly(log) && Held(old(log)) <= Held(log) && HeldQueue(log) == HeldQueue(old(log))
      ensures old(log) <= log
      ensures (reliable ==> exit.Done?)
      ensures exit.Done? ==> next <= Held(log)
      ensures exit.Done? ==> TorrentsTaken(pressure, owned, old(torrents), torrents, next)
      ensures !exit.Done? ==> next == owned
      ensures Between(pressure, owned, old(torrents), torrents)
      ensures faults == old(faults) + if exit.Failed? then 1 else 0
    {
      next := owned;
      exit := Luck();
      if !exit.Done? {
        return;
      }
      Note(Listed(torrents));
      ListingHeld(old(log), torrents);
      if pressure {
        exit, next := StopDownloads(owned);
      } else {
        exit, next := StartOwned(owned);
      }
    }

    /** The download queue: paused if it was not, resumed only if it is owned. */
    method ReconcileQueue(pressure: bool, owned: bool) returns (exit: Exit, next: bool)
      requires OwnedOnly(log) && (owned ==> HeldQueue(log))
      modifies `paused, `log, `faults
      ensures OwnedOnly(log) && Held(log) == Held(old(log)) && (HeldQueue(old(log)) ==> HeldQueue(log))
      ensures old(log) <= log
      ensures (reliable ==> exit.Done?)
      ensures exit.Done? && next ==> HeldQueue(log)
      ensures exit.Done? ==> QueueTaken(pressure, owned, old(paused), paused, next)
      ensures !exit.Done? ==> next == owned
      ensures faults == old(faults) + if exit.Failed? then 1 else 0
      ensures paused != old(paused) ==> if pressure then paused else owned
      ensures exit.Done? ==>
          log == old(log) +
            if pressure && !old(paused) then [Paused] else if !pressure && owned && old(paused) then [Resumed] else []
      ensures log == old(log) || (pressure && !old(paused)) || (!pressure && owned && old(paused))
    {
      next := owned;
      exit := Luck();
      if !exit.Done? {
        return;
      }
      var wasPaused := paused;
      if pressure && !wasPaused {
        exit := Luck();
        var done: bool := *;
        if done || exit.Done? {
          paused := true;
        }
        if exit.Done? {
          LogHeld(log, Paused);
          Note(Paused);
          next := true;
        }
      } else if !pressure && owned {
        if wasPaused {
          LogHeld(log, Resumed);
          assert (log + [Resumed])[..|log|] == log;
          Note(Resumed);
          exit := Luck();
          var done: bool := *;
          if done || exit.Done? {
            paused := false;
          }
          if !exit.Done? {
            return;
          }
        }
        next := false;
      }
    }

    /** The journal so far claims no more than what is held. */
    ghost predicate Claims(state: Journal)
      reads this
    {
      OwnedOnly(log) && state.torrents <= Held(log) && (state.queue ==> HeldQueue(log))
    }

    /** What one client's turn makes of its part of the journal. */
    method Turn(client: Client, state: Journal) returns (exit: Exit, next: Journal)
      requires Claims(state) && Claims(journal)
      modifies `torrents, `paused, `log, `faults
      ensures Claims(next) && Claims(journal) && (reliable ==> exit.Done?) && old(log) <= log
      ensures next.pressured == state.pressured
      ensures if client.Torrents? then next.queue == state.queue else next.torrents == state.torrents
      ensures !exit.Done? ==> next == state
      ensures faults == old(faults) + if exit.Failed? then 1 else 0
      ensures
        if client.Torrents? then
          && paused == old(paused) && Between(state.pressured, state.torrents, old(torrents), torrents)
          && (exit.Done? ==>
            TorrentsTaken(state.pressured, state.torrents, old(torrents), torrents, next.torrents))
        else
          && torrents == old(torrents) && (paused != old(paused) ==> if state.pressured then paused else state.queue)
          && (exit.Done? ==> QueueTaken(state.pressured, state.queue, old(paused), paused, next.queue))
    {
      next := state;
      if client.Torrents? {
        var owned;
        exit, owned := ReconcileTorrents(state.pressured, state.torrents);
        next := state.(torrents := owned);
      } else {
        var owned;
        exit, owned := ReconcileQueue(state.pressured, state.queue);
        next := state.(queue := owned);
      }
    }

    /** What the turns so far have made of the downloads and of the journal. */
    ghost predicate Turned(clients: seq<Client>, n: nat, state: Journal, failures: bool, before: map<string, string>,
        wasPaused: bool)
      requires n <= |clients|
      reads this
    {
      && Claims(state) && Claims(journal)
      && Between(state.pressured, journal.torrents, before, torrents)
      && (paused != wasPaused ==> if state.pressured then paused else journal.queue)
      && (Torrents !in clients[..n] ==> state.torrents == journal.torrents && torrents == before)
      && (Queue !in clients[..n] ==> state.queue == journal.queue && paused == wasPaused)
      && (!failures && Torrents in clients[..n] ==>
        TorrentsTaken(state.pressured, journal.torrents, before, torrents, state.torrents))
      && (!failures && Queue in clients[..n] ==>
        QueueTaken(state.pressured, journal.queue, wasPaused, paused, state.queue))
      && (if state.pressured then journal.torrents <= state.torrents else state.torrents in {journal.torrents, {}})
      && (if state.pressured then journal.queue ==> state.queue else state.queue ==> journal.queue)
    }

    /**
     * One run. Under pressure it stops what downloads and pauses the queue, and owns them; otherwise it starts and
     * resumes what it owns and still finds stopped, and releases all. It has failed just when a request failed. A
     * failing client keeps its ownership; the journal is replaced at the end or not at all, and a run that is killed
     * leaves the old one. Whatever fails, no other torrent is touched.
     */
    method Run(reading: Reading, clients: seq<Client>) returns (exit: Exit)
      requires Valid()
      modifies this
      ensures Valid() && old(log) <= log
      ensures exit.Killed? ==> journal == old(journal) && readings == old(readings)
      ensures !exit.Killed? ==>
          readings == old(readings) + [reading]
          && journal.pressured == Pressured(limits, reading, old(journal.pressured))
      ensures !exit.Killed? ==> (exit.Failed? <==> faults > old(faults))
      ensures
        var pressure := Pressured(limits, reading, old(journal.pressured));
        && Between(pressure, old(journal.torrents), old(torrents), torrents)
        && (paused != old(paused) ==> if pressure then paused else old(journal.queue))
        && (exit.Done? && Torrents in clients ==>
          TorrentsTaken(pressure, old(journal.torrents), old(torrents), torrents, journal.torrents))
        && (exit.Done? && Queue in clients ==>
          QueueTaken(pressure, old(journal.queue), old(paused), paused, journal.queue))
      ensures Torrents !in clients ==> journal.torrents == old(journal.torrents) && torrents == old(torrents)
      ensures Queue !in clients ==> journal.queue == old(journal.queue) && paused == old(paused)
      ensures !exit.Killed? && journal.pressured ==>
          old(journal.torrents) <= journal.torrents && (old(journal.queue) ==> journal.queue)
      ensures old(reliable) ==> exit.Done?
      ensures !exit.Killed? ==> log != [] && log[|log| - 1] == Journalled(journal)
    {
      var state := journal.(pressured := Pressured(limits, reading, journal.pressured));
      var failures := false;
      for n := 0 to |clients|
        invariant Turned(clients, n, state, failures, old(torrents), old(paused))
        invariant journal == old(journal) && readings == old(readings) && reliable == old(reliable)
        invariant old(log) <= log && (failures <==> faults > old(faults)) && (reliable ==> !failures)
        invariant faults >= old(faults)
        invariant state.pressured == Pressured(limits, reading, old(journal.pressured))
      {
        exit, state := OneTurn(clients, n, state, failures, old(torrents), old(paused));
        if exit.Killed? {
          return;
        }
        failures := failures || exit.Failed?;
      }
      assert clients[..|clients|] == clients;
      exit := WriteJournal(state, reading);
      if exit.Done? && failures {
        exit := Failed;
      }
    }

    method OneTurn(clients: seq<Client>, n: nat, state: Journal, failures: bool, ghost before: map<string, string>,
        ghost wasPaused: bool)
      returns (exit: Exit, next: Journal)
      requires n < |clients| && Turned(clients, n, state, failures, before, wasPaused)
      modifies `torrents, `paused, `log, `faults
      ensures Turned(clients, n + 1, next, failures || exit.Failed?, before, wasPaused) || exit.Killed?
      ensures next.pressured == state.pressured && (reliable ==> exit.Done?) && old(log) <= log && Claims(journal)
      ensures faults == old(faults) + if exit.Failed? then 1 else 0
      ensures Between(state.pressured, journal.torrents, before, torrents)
      ensures paused != wasPaused ==> if state.pressured then paused else journal.queue
      ensures Torrents !in clients ==> torrents == before
      ensures Queue !in clients ==> paused == wasPaused
    {
      assert clients[..n + 1] == clients[..n] + [clients[n]];
      ghost var now := torrents;
      exit, next := Turn(clients[n], state);
      BetweenTwice(state.pressured, journal.torrents, state.torrents, before, now, torrents);
      if exit.Done? && !failures && clients[n].Torrents? && Torrents in clients[..n] {
        TakenTwice(state.pressured, journal.torrents, before, now, state.torrents, torrents, next.torrents);
      }
    }

    /** Replaces the journal, or dies before that. */
    method WriteJournal(state: Journal, reading: Reading) returns (exit: Exit)
      requires Valid() && Claims(state) && state.pressured == Pressured(limits, reading, journal.pressured)
      modifies `journal, `log, `readings, `faults
      ensures Valid() && !exit.Failed? && (reliable ==> exit.Done?) && old(log) <= log
      ensures exit.Killed? ==> journal == old(journal) && readings == old(readings)
      ensures exit.Done? ==> journal == state && readings == old(readings) + [reading] && faults == old(faults)
      ensures exit.Done? ==> log == old(log) + [Journalled(state)]
    {
      exit := Luck();
      if !exit.Done? {
        return Killed;
      }
      journal := state;
      LogHeld(log, Journalled(state));
      Note(Journalled(state));
      assert (readings + [reading])[..|readings|] == readings;
      readings := readings + [reading];
    }
  }

  lemma LogGrows(log: seq<Event>, event: Event)
    requires OwnedOnly(log) && EventOwned(log + [event], |log|)
    ensures OwnedOnly(log + [event])
  {
    forall i | 0 <= i < |log|
      ensures EventOwned(log + [event], i)
    {
      assert EventOwned(log, i);
      assert (log + [event])[..i] == log[..i];
    }
  }

  /** What one more event does to what is held. */
  lemma LogHeld(log: seq<Event>, event: Event)
    ensures Held(log + [event]) == HeldAfter(Held(log), event)
    ensures HeldQueue(log + [event]) == HeldQueueAfter(HeldQueue(log), event)
  {
    assert (log + [event])[..|log|] == log;
  }

  lemma ListingHeld(log: seq<Event>, torrents: map<string, string>)
    ensures var after := log + [Listed(torrents)]; Held(after) == Held(log) && HeldQueue(after) == HeldQueue(log)
  {
    LogHeld(log, Listed(torrents));
  }

  lemma StopHeld(after: seq<Event>, log: seq<Event>, hashes: set<string>)
    requires after == log || after == log + [Stopped(hashes)]
    ensures Held(log) <= Held(after) && HeldQueue(after) == HeldQueue(log)
    ensures after != log ==> hashes <= Held(after)
  {
    LogHeld(log, Stopped(hashes));
  }

  lemma StartHeld(log: seq<Event>, hashes: set<string>)
    ensures var after := log + [Started(hashes)]; Held(after) == Held(log) && HeldQueue(after) == HeldQueue(log)
  {
    LogHeld(log, Started(hashes));
  }

  /**
   * Owned resume only, spelled out: a started torrent was reported downloading and then stopped by the guard, and no
   * journal written since released it.
   */
  lemma StartedWasStopped(log: seq<Event>, i: nat, h: string) returns (j: nat)
    requires OwnedOnly(log) && i < |log| && log[i].Started? && h in log[i].hashes
    ensures 0 < j < i && StopsAt(log, j, h) && log[j - 1].Listed? && h in Downloading(log[j - 1].torrents)
    ensures forall k | j < k < i && log[k].Journalled? :: h in log[k].journal.torrents
  {
    assert EventOwned(log, i);
    var before := log[..i];
    HeldMeans(before, h);
    j :| 0 <= j < |before| && StopsAt(before, j, h) && forall k | j < k < |before| && before[k].Journalled? ::
        h in before[k].journal.torrents;
    assert EventOwned(log, j);
    assert forall k | j < k < i :: before[k] == log[k];
  }

  /**
   * Any number of runs among users, failures and kills. The history only grows, and over all of it every start and
   * resumption was of something owned; the journal claims only what is held; and its flag is the one that the
   * readings of the runs which were not killed give.
   */
  method Runs(guard: Guard, readings: seq<Reading>, clients: seq<Client>)
    requires guard.Valid()
    modifies guard
    ensures guard.Valid() && old(guard.log) <= guard.log && old(guard.readings) <= guard.readings
    ensures |guard.readings| <= |old(guard.readings)| + |readings|
  {
    for n := 0 to |readings|
      invariant guard.Valid() && old(guard.log) <= guard.log && old(guard.readings) <= guard.readings
      invariant |guard.readings| <= |old(guard.readings)| + n
    {
      guard.Interfere();
      var exit := guard.Run(readings[n], clients);
    }
  }
}
