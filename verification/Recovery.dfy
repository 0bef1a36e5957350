/**
 * The stopped-writer recovery copy: a journal of the writers to start again, a copy phase with all
 * writers stopped, a manifest, and cleanup. Commands may fail and the process may be killed anywhere.
 */
module Recovery {
  import opened FileTrees
  import opened Restore

  // ---------------------------------------------------------------- inventory

  datatype Service = Service(name: string, units: seq<string>, paths: seq<Path>, prepares: bool)

  type Inventory = seq<Service>

  function Units(inventory: Inventory): set<string> {
    set i, unit | 0 <= i < |inventory| && unit in inventory[i].units :: unit
  }

  function ServiceJobs(s: Service): seq<Entry> {
    seq(|s.paths|, i requires 0 <= i < |s.paths| => Entry(s.paths[i], [Name("services"), Name(s.name), Index(i)]))
  }

  /** Every directory to copy, with its place in the staging directory. */
  function Jobs(inventory: Inventory): seq<Entry> {
    if inventory == [] then [] else Jobs(inventory[..|inventory| - 1]) + ServiceJobs(inventory[|inventory| - 1])
  }

  ghost predicate DistinctNames(inventory: Inventory) {
    forall i, j | 0 <= i < j < |inventory| :: inventory[i].name != inventory[j].name
  }

  /** The test that keeps staging and sources apart. */
  predicate Apart(inventory: Inventory, target: Path) {
    forall i, j | 0 <= i < |inventory| && 0 <= j < |inventory[i].paths| :: !Overlap(target, inventory[i].paths[j])
  }

  predicate IsJob(e: Entry, s: Service) {
    |e.copy| == 3 && e.copy[..2] == [Name("services"), Name(s.name)] && e.copy[2].Index? && e.copy[2].i < |s.paths|
    && e.resolved == s.paths[e.copy[2].i]
  }

  lemma {:induction false} JobsMean(inventory: Inventory, n: nat)
    requires n < |Jobs(inventory)|
    ensures exists i | 0 <= i < |inventory| :: IsJob(Jobs(inventory)[n], inventory[i])
  {
    var last := |inventory| - 1;
    if n < |Jobs(inventory[..last])| {
      JobsMean(inventory[..last], n);
      var i :| 0 <= i < last && IsJob(Jobs(inventory[..last])[n], inventory[..last][i]);
      assert IsJob(Jobs(inventory)[n], inventory[i]);
    } else {
      assert IsJob(Jobs(inventory)[n], inventory[last]);
    }
  }

  /** No two directories are copied to the same place. */
  lemma {:induction false} JobsDistinct(inventory: Inventory, m: nat, n: nat)
    requires DistinctNames(inventory) && m < n < |Jobs(inventory)|
    ensures Jobs(inventory)[m].copy != Jobs(inventory)[n].copy
  {
    var last := |inventory| - 1;
    var shorter := Jobs(inventory[..last]);
    if n < |shorter| {
      JobsDistinct(inventory[..last], m, n);
    } else if m < |shorter| {
      JobsMean(inventory[..last], m);
      var i :| 0 <= i < last && IsJob(shorter[m], inventory[..last][i]);
      assert shorter[m].copy[1] == Name(inventory[i].name) && Jobs(inventory)[n].copy[1] == Name(inventory[last].name);
    } else {
      assert Jobs(inventory)[m].copy[2] == Index(m - |shorter|) && Jobs(inventory)[n].copy[2] == Index(n - |shorter|);
    }
  }

  /** All declared directories, and nothing else, are copied. */
  lemma {:induction false} JobsComplete(inventory: Inventory, i: nat, j: nat)
    requires i < |inventory| && j < |inventory[i].paths|
    ensures exists n | 0 <= n < |Jobs(inventory)| :: Jobs(inventory)[n].resolved == inventory[i].paths[j]
  {
    var last := |inventory| - 1;
    if i == last {
      assert Jobs(inventory)[|Jobs(inventory[..last])| + j].resolved == inventory[i].paths[j];
    } else {
      JobsComplete(inventory[..last], i, j);
      var n :| 0 <= n < |Jobs(inventory[..last])| && Jobs(inventory[..last])[n].resolved == inventory[i].paths[j];
      assert Jobs(inventory)[n].resolved == inventory[i].paths[j];
    }
  }

  lemma JobsApart(inventory: Inventory, target: Path, n: nat)
    requires Apart(inventory, target) && n < |Jobs(inventory)|
    ensures !Overlap(target, Jobs(inventory)[n].resolved)
  {
    JobsMean(inventory, n);
  }

  // ---------------------------------------------------------------- writers and their journal

  datatype UnitState = Active | Activating | Inactive | Failed | Transitional

  type UnitStates = map<string, UnitState>

  predicate Running(state: UnitState) {
    state.Active? || state.Activating?
  }

  predicate Stopped(state: UnitState) {
    state.Inactive? || state.Failed?
  }

  predicate AllStopped(inventory: Inventory, units: UnitStates) {
    forall unit | unit in Units(inventory) :: unit in units && Stopped(units[unit])
  }

  /** The journal file: absent, cut short by an interrupted write, or complete. */
  datatype Journal = Absent | Torn | Written(units: seq<string>)

  /** The writers to start again. */
  ghost function RunningBefore(inventory: Inventory, initial: UnitStates): set<string> {
    set unit | unit in Units(inventory) && unit in initial && initial[unit] in {Active, Activating}
  }

  /**
   * What holds at every moment: only writers that were running are ever touched, a complete journal lists
   * exactly those, and one that does not run any more is in the journal.
   */
  ghost predicate Safe(inventory: Inventory, initial: UnitStates, units: UnitStates, journal: Journal) {
    && units.Keys == initial.Keys
    && (forall unit | unit in units && unit !in RunningBefore(inventory, initial) :: units[unit] == initial[unit])
    && (journal.Written? ==> forall unit :: unit in journal.units <==> unit in RunningBefore(inventory, initial))
    && (forall unit | unit in RunningBefore(inventory, initial) && !Running(units[unit]) ::
        journal.Written? && unit in journal.units)
  }

  /** Exactly the writers that ran at the start run again, and nothing else was started or stopped. */
  ghost predicate Recovered(inventory: Inventory, initial: UnitStates, units: UnitStates) {
    && units.Keys == initial.Keys
    && (forall unit | unit in units && unit !in RunningBefore(inventory, initial) :: units[unit] == initial[unit])
    && (forall unit | unit in RunningBefore(inventory, initial) :: units[unit] in {Active, Activating})
  }

  /** Without a complete journal every writer is still running. */
  lemma NothingToRecover(inventory: Inventory, initial: UnitStates, units: UnitStates, journal: Journal)
    requires Safe(inventory, initial, units, journal) && !journal.Written?
    ensures Recovered(inventory, initial, units)
  {
  }

  // ---------------------------------------------------------------- the staging directory

  const MARKER: Path := [Name(".homelab-staging")]
  const MANIFEST: Path := [Name("manifest.json")]

  /** Staging content without the ownership marker, which cleanup refuses to remove. */
  predicate Unowned(files: Files, target: Path) {
    target in files && Look(files, target + MARKER) != Some(Marker)
  }

  /** Nothing outside the staging directory differs. */
  ghost predicate SameOutside(a: Files, b: Files, target: Path) {
    forall path | !(target <= path) :: Look(a, path) == Look(b, path)
  }

  ghost predicate Empty(files: Files, root: Path) {
    forall path | root <= path :: path !in files
  }

  ghost predicate AllCopied(files: Files, target: Path, stopped: Files, jobs: seq<Entry>) {
    forall n | 0 <= n < |jobs| ::
        Staged(files, target, stopped, jobs[n]) && Look(stopped, jobs[n].resolved) == Some(Directory)
  }

  /** A file can be written here: in a directory, and not in the place of one. */
  predicate PuttableFile(files: Files, path: Path) {
    path != [] && Look(files, Parent(path)) == Some(Directory) && Look(files, path) != Some(Directory)
  }

  lemma WellFormedWrite(files: Files, path: Path, node: Node)
    ensures WellFormed(files) && PuttableFile(files, path) ==> WellFormed(files[path := node])
  {
    if WellFormed(files) && PuttableFile(files, path) {
      PutKeepsWellFormed(files, path, node);
    }
  }

  lemma RemovedOutside(files: Files, root: Path, target: Path)
    requires !Overlap(root, target)
    ensures forall path | target <= path :: Look(RemoveTree(files, root), path) == Look(files, path)
  {
    forall path | target <= path
      ensures Look(RemoveTree(files, root), path) == Look(files, path)
    {
      if root <= path {
        CommonDescendant(root, target, path);
      }
    }
  }

  datatype Exit = Done | Raised | Killed | Refused

  // ---------------------------------------------------------------- the machine

  class Host {
    var files: Files
    var units: UnitStates
    var journal: Journal

    /** Whether commands succeed and the process survives from here on. */
    var reliable: bool

    /** The commands to start units and to remove trees that were given so far, and the services' own ones. */
    var starts: seq<seq<string>>
    var removals: seq<Path>
    var prepares: seq<string>

    constructor (files: Files, units: UnitStates, journal: Journal, reliable: bool)
      ensures this.files == files && this.units == units && this.journal == journal && this.reliable == reliable
      ensures starts == [] && removals == [] && prepares == []
    {
      this.files, this.units, this.journal, this.reliable := files, units, journal, reliable;
      this.starts, this.removals, this.prepares := [], [], [];
    }

    /** A step may go through, raise an exception, or be the last before a kill. */
    method Luck() returns (exit: Exit)
      ensures !exit.Refused? && (reliable ==> exit.Done?)
    {
      exit := *;
      if reliable || exit.Refused? {
        exit := Done;
      }
    }

    /** Writing a file is not atomic: short of success it may leave a part of its contents. */
    method Write(path: Path, node: Node) returns (exit: Exit)
      modifies `files
      ensures !exit.Refused? && (reliable ==> exit.Done?)
      ensures exit.Done? ==> files == old(files)[path := node]
      ensures forall other | other != path :: Look(files, other) == Look(old(files), other)
      ensures WellFormed(old(files)) && PuttableFile(old(files), path) && node != Directory ==>
          WellFormed(files) && Look(files, path) != Some(Directory)
    {
      exit := Luck();
      var part: string, begun: bool, complete: bool := *, *, *;
      if exit.Done? || begun {
        var written := if exit.Done? || complete then node else File(part);
        WellFormedWrite(files, path, written);
        files := files[path := written];
      }
    }

    method WriteJournal(us: seq<string>) returns (exit: Exit)
      modifies `journal
      ensures !exit.Refused? && (reliable ==> exit.Done?)
      ensures exit.Done? ==> journal == Written(us)
      ensures journal in {old(journal), Torn, Written(us)}
    {
      exit := Luck();
      if exit.Done? {
        journal := Written(us);
      } else {
        var torn: bool, complete: bool := *, *;
        if torn || complete {
          journal := if complete then Written(us) else Torn;
        }
      }
    }

    /** Stopping may leave the listed units in any state, even if it reports success; on a reliable host they stop. */
    method Stop(us: seq<string>) returns (exit: Exit)
      requires forall unit | unit in us :: unit in units
      modifies `units
      ensures !exit.Refused? && (reliable ==> exit.Done?)
      ensures units.Keys == old(units).Keys && forall unit | unit in units && unit !in us ::
          units[unit] == old(units)[unit]
      ensures reliable ==> forall unit | unit in us :: Stopped(units[unit])
    {
      exit := Luck();
      if reliable {
        units := map unit | unit in units :: if unit in us then Inactive else units[unit];
      } else {
        var any: UnitStates := *;
        units := map unit | unit in units :: if unit in us && unit in any then any[unit] else units[unit];
      }
    }

    /** A successful start leaves every listed unit active; otherwise they may be in any state. */
    method Start(us: seq<string>) returns (exit: Exit)
      requires forall unit | unit in us :: unit in units
      modifies `units, `starts
      ensures starts == old(starts) + [us]
      ensures !exit.Refused? && (reliable ==> exit.Done?)
      ensures units.Keys == old(units).Keys && forall unit | unit in units && unit !in us ::
          units[unit] == old(units)[unit]
      ensures exit.Done? ==> forall unit | unit in us :: units[unit] == Active
    {
      starts := starts + [us];
      exit := Luck();
      if exit.Done? {
        units := map unit | unit in units :: if unit in us then Active else units[unit];
      } else {
        var any: UnitStates := *;
        units := map unit | unit in units :: if unit in us && unit in any then any[unit] else units[unit];
      }
    }

    /** A service's own command may do anything outside staging; it runs with all writers stopped. */
    method Prepare(ghost inventory: Inventory, service: string, target: Path) returns (exit: Exit)
      requires AllStopped(inventory, units) && WellFormed(files)
      modifies `files, `prepares
      ensures prepares == old(prepares) + [service]
      ensures !exit.Refused? && (reliable ==> exit.Done?)
      ensures WellFormed(files)
      ensures forall path | target <= path :: Look(files, path) == Look(old(files), path)
    {
      prepares := prepares + [service];
      exit := Luck();
      var steps: int := *;
      steps := if steps < 0 then 0 else steps;
      for i := 0 to steps
        invariant WellFormed(files) && prepares == old(prepares) + [service]
        invariant forall path | target <= path :: Look(files, path) == Look(old(files), path)
      {
        var path: Path, node: Node, remove: bool := *, *, *;
        if remove && !Overlap(path, target) {
          RemoveKeepsWellFormed(files, path);
          RemovedOutside(files, path, target);
          files := RemoveTree(files, path);
        } else if !remove && !(target <= path) && Puttable(files, path, node) {
          PutKeepsWellFormed(files, path, node);
          files := files[path := node];
        }
      }
    }

    /** Copies a directory to a fresh place while all writers are stopped; an interrupted copy is partial. */
    method Copy(ghost inventory: Inventory, source: Path, destination: Path) returns (exit: Exit)
      requires AllStopped(inventory, units) && Empty(files, destination)
      modifies `files
      ensures !exit.Refused? && (reliable ==> !exit.Killed?)
      ensures exit.Done? ==> Look(old(files), source) == Some(Directory)
      ensures reliable && Look(old(files), source) == Some(Directory) ==> exit.Done?
      ensures exit.Done? ==> files == CopyTree(old(files), source, destination)
      ensures forall path | !(destination <= path) :: Look(files, path) == Look(old(files), path)
    {
      exit := Luck();
      if exit.Done? && Look(files, source) != Some(Directory) {
        exit := Raised;
      }
      forall path | !(destination <= path)
        ensures Look(CopyTree(files, source, destination), path) == Look(files, path)
      {
        CopyTreeAt(files, source, destination, path);
      }
      if exit.Done? {
        files := CopyTree(files, source, destination);
      } else {
        var any: Files := *;
        files := map path | path in files.Keys + any.Keys
            && (if destination <= path then path in any else path in files) ::
          if destination <= path then any[path] else files[path];
      }
    }

    /** Exports one database into staging while all writers are stopped. */
    method Dump(ghost inventory: Inventory, path: Path) returns (exit: Exit)
      requires AllStopped(inventory, units)
      modifies `files
      ensures !exit.Refused? && (reliable ==> exit.Done?)
      ensures exit.Done? ==> path in files && files[path].File?
      ensures WellFormed(old(files)) && PuttableFile(old(files), path) ==>
          WellFormed(files) && Look(files, path) != Some(Directory)
      ensures forall other | other != path :: Look(files, other) == Look(old(files), other)
    {
      var contents: string := *;
      exit := Write(path, File(contents));
    }

    /** Removes a tree node by node; an interrupted removal leaves some of them. */
    method Remove(root: Path) returns (exit: Exit)
      modifies `files, `removals
      ensures removals == old(removals) + [root]
      ensures !exit.Refused? && (reliable ==> exit.Done?)
      ensures exit.Done? ==> files == RemoveTree(old(files), root)
      ensures SameOutside(files, old(files), root)
      ensures forall path | path in files :: Look(files, path) == Look(old(files), path)
    {
      removals := removals + [root];
      exit := Luck();
      if exit.Done? {
        files := RemoveTree(files, root);
      } else {
        var gone: set<Path> := *;
        files := map path | path in files && !(root <= path && path in gone) :: files[path];
      }
    }
  }

  // ---------------------------------------------------------------- resuming the writers

  /** The start of just the journalled writers was commanded, but failed. */
  predicate Attempted(host: Host, starts: seq<seq<string>>)
    reads host
  {
    host.journal.Written? && host.starts == starts + [host.journal.units]
  }

  /** Starts the journalled writers and then removes the journal. */
  method Resume(host: Host, inventory: Inventory, ghost initial: UnitStates) returns (exit: Exit)
    requires Safe(inventory, initial, host.units, host.journal)
    modifies host`units, host`journal, host`starts
    ensures !exit.Refused?
    ensures exit.Killed? || Recovered(inventory, initial, host.units) || Attempted(host, old(host.starts))
    ensures host.reliable ==> !exit.Killed?
    ensures Safe(inventory, initial, host.units, host.journal)
    ensures exit.Done? ==> host.journal.Absent? && Recovered(inventory, initial, host.units)
    ensures old(host.journal).Torn? ==> exit.Raised? && host.journal.Torn?
    ensures host.reliable && !old(host.journal).Torn? ==> exit.Done?
    ensures exit.Done? ==>
        host.starts == old(host.starts) +
          if old(host.journal).Absent? || old(host.journal).units == [] then [] else [old(host.journal).units]
  {
    if host.journal.Absent? {
      return Done;
    }
    if host.journal.Torn? || exists unit | unit in host.journal.units :: unit !in Units(inventory) {
      return Raised;
    }
    if host.journal.units != [] {
      exit := host.Start(host.journal.units);
      if !exit.Done? {
        return;
      }
    }
    exit := host.Luck();
    if exit.Done? {
      host.journal := Absent;
    }
  }

  /** Removes owned staging content after the writers run again; content without the marker is refused. */
  method Cleanup(host: Host, inventory: Inventory, target: Path, ghost initial: UnitStates) returns (exit: Exit)
    requires Safe(inventory, initial, host.units, host.journal)
    modifies host`files, host`units, host`journal, host`starts, host`removals
    ensures Safe(inventory, initial, host.units, host.journal)
    ensures host.files != old(host.files) ==> host.journal.Absent? && Recovered(inventory, initial, host.units)
    ensures (exit.Refused? <==>
      || !Apart(inventory, target)
      || (target in old(host.files) && Look(old(host.files), target + [Name(".homelab-staging")]) != Some(Marker)))
    ensures exit.Refused? ==>
        host.files == old(host.files) && host.units == old(host.units) && host.journal == old(host.journal)
    ensures exit.Done? ==> host.journal.Absent? && Recovered(inventory, initial, host.units) && target !in host.files
    ensures host.reliable && !exit.Refused? && !old(host.journal).Torn? ==> exit.Done?
    ensures old(host.journal).Torn? ==> host.journal.Torn?
    ensures SameOutside(host.files, old(host.files), target)
  {
    if !Apart(inventory, target) || Unowned(host.files, target) {
      return Refused;
    }
    exit := Resume(host, inventory, initial);
    if exit.Done? && target in host.files {
      exit := host.Remove(target);
    }
  }

  // ---------------------------------------------------------------- staging

  /** Every unit is loaded, and none is on its way between states. */
  predicate Settled(inventory: Inventory, units: UnitStates) {
    forall unit | unit in Units(inventory) :: unit in units && !units[unit].Transitional?
  }

  /** Records the running writers, journals them, stops them, and checks that all of them did stop. */
  method StopWriters(host: Host, inventory: Inventory) returns (exit: Exit)
    requires host.journal.Absent?
    modifies host`units, host`journal
    ensures !exit.Refused?
    ensures Safe(inventory, old(host.units), host.units, host.journal)
    ensures exit.Done? ==> AllStopped(inventory, host.units) && host.journal.Written?
    ensures exit.Done? ==> forall unit | unit in Units(inventory) :: host.units[unit] in {Inactive, Failed}
    ensures host.reliable ==> (exit.Done? <==> Settled(inventory, old(host.units))) && !exit.Killed?
    ensures host.reliable ==> !host.journal.Torn?
  {
    ghost var initial := host.units;
    var active: seq<string> := [];
    var rest := Units(inventory);
    while rest != {}
      invariant rest <= Units(inventory)
      invariant forall unit | unit in Units(inventory) - rest ::
          unit in host.units && !host.units[unit].Transitional?
      invariant forall unit :: unit in active <==> unit in RunningBefore(inventory, initial) - rest
      invariant host.units == initial && host.journal.Absent?
    {
      var unit :| unit in rest;
      exit := host.Luck();
      if !exit.Done? {
        return;
      }
      if unit !in host.units || host.units[unit].Transitional? {
        return Raised;
      }
      if Running(host.units[unit]) {
        active := active + [unit];
      }
      rest := rest - {unit};
    }
    exit := host.WriteJournal(active);
    if !exit.Done? {
      return;
    }
    if active != [] {
      exit := host.Stop(active);
      if !exit.Done? {
        return;
      }
    }
    exit := host.Luck();
    if exit.Done? && !AllStopped(inventory, host.units) {
      exit := Raised;
    }
  }

  function DumpPath(target: Path, database: string): Path {
    target + [Name("databases")] + [Name(database + ".dump")]
  }

  const DATABASES: Path := [Name("databases")]

  ghost predicate NoDirectories(files: Files, root: Path) {
    forall path | root <= path && path != root :: Look(files, path) != Some(Directory)
  }

  /** The place of the dumps: a directory with files only, or not there yet. */
  ghost predicate DumpsPlace(files: Files, target: Path) {
    && WellFormed(files) && Look(files, target) == Some(Directory) && NoDirectories(files, target + DATABASES)
    && (target + DATABASES in files ==> files[target + DATABASES] == Directory)
  }

  lemma DumpsBegin(files: Files, target: Path)
    requires DumpsPlace(files, target)
    ensures DumpsPlace(files[target + DATABASES := Directory], target)
  {
    var place := target + DATABASES;
    assert Parent(place) == target;
    PutKeepsWellFormed(files, place, Directory);
    var after := files[place := Directory];
    forall path | place <= path && path != place
      ensures Look(after, path) != Some(Directory)
    {
      assert Look(files, path) != Some(Directory);
    }
  }

  /** Writing one file there keeps the place in order. */
  lemma DumpsGoOn(before: Files, after: Files, target: Path, path: Path)
    requires DumpsPlace(before, target) && Look(before, target + DATABASES) == Some(Directory)
    requires Parent(path) == target + DATABASES && path != []
    requires forall other | other != path :: Look(after, other) == Look(before, other)
    requires WellFormed(after) && Look(after, path) != Some(Directory)
    ensures DumpsPlace(after, target) && Look(after, target + DATABASES) == Some(Directory)
  {
    assert |path| == |target| + 2;
    assert Look(after, target) == Look(before, target);
    assert Look(after, target + DATABASES) == Look(before, target + DATABASES);
  }

  /** Every database has its dump in staging, and their connections are listed beside the dumps. */
  ghost predicate Dumped(files: Files, target: Path, databases: seq<string>) {
    && (forall n | 0 <= n < |databases| :: target + [Name("databases"), Name(databases[n] + ".dump")] in files)
    && (databases != [] ==> target + [Name("databases"), Name("manifest.json")] in files)
  }

  lemma DumpPlaces(files: Files, target: Path, databases: seq<string>)
    requires forall n | 0 <= n < |databases| :: DumpPath(target, databases[n]) in files
    requires databases != [] ==> target + DATABASES + MANIFEST in files
    ensures Dumped(files, target, databases)
  {
    assert target + DATABASES + MANIFEST == target + [Name("databases"), Name("manifest.json")];
    forall n | 0 <= n < |databases|
      ensures target + [Name("databases"), Name(databases[n] + ".dump")] in files
    {
      assert DumpPath(target, databases[n]) == target + [Name("databases"), Name(databases[n] + ".dump")];
    }
  }

  /** Neither the copies nor the manifest are where dumps are. */
  lemma StaysDumped(before: Files, after: Files, target: Path, databases: seq<string>)
    requires Dumped(before, target, databases)
    requires forall path | !(target + [Name("services")] <= path) && path != target + MANIFEST ::
        Look(after, path) == Look(before, path)
    ensures Dumped(after, target, databases)
  {
    forall name: Part
      ensures var path := target + [Name("databases"), name]; Look(after, path) == Look(before, path)
    {
      var path := target + [Name("databases"), name];
      assert path[|target|] != (target + [Name("services")])[|target|];
    }
    forall n | 0 <= n < |databases|
      ensures target + [Name("databases"), Name(databases[n] + ".dump")] in after
    {
      assert Look(before, target + [Name("databases"), Name(databases[n] + ".dump")]).Some?;
    }
  }

  /** Exports every database into its own file, and their connections beside them. */
  method DumpAll(host: Host, inventory: Inventory, target: Path, databases: seq<string>) returns (exit: Exit)
    requires AllStopped(inventory, host.units) && DumpsPlace(host.files, target)
    modifies host`files
    ensures !exit.Refused? && WellFormed(host.files)
    ensures host.reliable ==> exit.Done?
    ensures exit.Done? ==> Dumped(host.files, target, databases)
    ensures forall path | !(target + DATABASES <= path) :: Look(host.files, path) == Look(old(host.files), path)
  {
    exit := Done;
    for n := 0 to |databases|
      invariant exit.Done? && DumpsPlace(host.files, target)
      invariant n > 0 ==> Look(host.files, target + DATABASES) == Some(Directory)
      invariant forall m | 0 <= m < n :: DumpPath(target, databases[m]) in host.files
      invariant forall path | !(target + DATABASES <= path) :: Look(host.files, path) == Look(old(host.files), path)
    {
      DumpsBegin(host.files, target);
      host.files := host.files[target + DATABASES := Directory];
      exit := DumpOne(host, inventory, target, databases, n);
      if !exit.Done? {
        return;
      }
    }
    if databases != [] {
      ghost var before := host.files;
      assert Parent(target + DATABASES + MANIFEST) == target + DATABASES;
      exit := host.Write(target + DATABASES + MANIFEST, File("databases"));
      forall m | 0 <= m < |databases|
        ensures exit.Done? ==> DumpPath(target, databases[m]) in host.files
      {
        assert Look(before, DumpPath(target, databases[m])).Some?;
      }
    }
    if exit.Done? {
      DumpPlaces(host.files, target, databases);
    }
  }

  /** One more dump leaves the earlier ones. */
  method DumpOne(host: Host, inventory: Inventory, target: Path, databases: seq<string>, n: nat) returns (exit: Exit)
    requires AllStopped(inventory, host.units) && n < |databases|
    requires DumpsPlace(host.files, target) && Look(host.files, target + DATABASES) == Some(Directory)
    requires forall m | 0 <= m < n :: DumpPath(target, databases[m]) in host.files
    modifies host`files
    ensures !exit.Refused? && (host.reliable ==> exit.Done?)
    ensures DumpsPlace(host.files, target) && Look(host.files, target + DATABASES) == Some(Directory)
    ensures exit.Done? ==> forall m | 0 <= m <= n :: DumpPath(target, databases[m]) in host.files
    ensures forall path | !(target + DATABASES <= path) :: Look(host.files, path) == Look(old(host.files), path)
  {
    ghost var before := host.files;
    var path := DumpPath(target, databases[n]);
    assert Parent(path) == target + DATABASES;
    exit := host.Dump(inventory, path);
    DumpsGoOn(before, host.files, target, path);
    forall m | 0 <= m < n
      ensures DumpPath(target, databases[m]) in host.files || !exit.Done?
    {
      assert Look(before, DumpPath(target, databases[m])).Some?;
    }
  }

  /** Makes the directories that a copy goes into. */
  function WithParents(files: Files, target: Path, e: Entry): Files
    requires |e.copy| == 3
  {
    files[target + e.copy[..1] := Directory][target + e.copy[..2] := Directory]
  }

  /** Where copies go: three levels below staging, under `services`. */
  predicate CopyPlace(e: Entry) {
    |e.copy| == 3 && e.copy[0] == Name("services")
  }

  lemma JobPlaces(inventory: Inventory)
    ensures forall n | 0 <= n < |Jobs(inventory)| :: CopyPlace(Jobs(inventory)[n])
  {
    forall n | 0 <= n < |Jobs(inventory)|
      ensures CopyPlace(Jobs(inventory)[n])
    {
      JobsMean(inventory, n);
      assert Jobs(inventory)[n].copy[0] == Jobs(inventory)[n].copy[..2][0];
    }
  }

  /** Two copies at different places have no path in common. */
  lemma CopiesSeparate(target: Path, a: Entry, b: Entry, path: Path)
    requires CopyPlace(a) && CopyPlace(b) && target + a.copy <= path && target + b.copy <= path
    ensures a.copy == b.copy
  {
    assert target + a.copy == path[..|target| + 3] == target + b.copy;
    assert a.copy == (target + a.copy)[|target|..] && b.copy == (target + b.copy)[|target|..];
  }

  /** What lies in a source lies outside staging. */
  lemma SourceOutside(target: Path, source: Path, r: Path)
    requires !Overlap(target, source)
    ensures !(target <= source + r)
  {
    if target <= source + r {
      CommonDescendant(target, source, source + r);
    }
  }

  /** One more copy is made and the earlier ones stay as they are. */
  lemma CopyStep(before: Files, after: Files, target: Path, stopped: Files, e: Entry, other: Entry)
    requires CopyPlace(e) && CopyPlace(other)
    requires (e == other || (e.copy != other.copy && Staged(before, target, stopped, other)))
    requires SameOutside(before, stopped, target) && !Overlap(target, e.resolved)
    requires after == CopyTree(WithParents(before, target, e), e.resolved, target + e.copy)
    ensures Staged(after, target, stopped, other)
  {
    var prepared := WithParents(before, target, e);
    forall r: Path
      ensures Look(after, target + other.copy + r) == Look(stopped, other.resolved + r)
    {
      var path := target + other.copy + r;
      CopyTreeAt(prepared, e.resolved, target + e.copy, path);
      if target + e.copy <= path {
        CopiesSeparate(target, other, e, path);
        assert Below(target + e.copy, path) == r;
        SourceOutside(target, e.resolved, r);
        assert target <= target + e.copy[..1] && target <= target + e.copy[..2];
      } else {
        assert |path| >= |target| + 3;
        assert Look(before, path) == Look(stopped, other.resolved + r);
      }
    }
  }

  lemma Shorter(p: Path, q: Path, path: Path)
    ensures p + q <= path ==> p <= path
  {
    if p + q <= path {
      assert p == (p + q)[..|p|] == path[..|p|];
    }
  }

  lemma CopiedBelow(target: Path, e: Entry, path: Path)
    requires CopyPlace(e) && !(target + [Name("services")] <= path)
    ensures !(target + e.copy <= path) && path != target + e.copy[..1] && path != target + e.copy[..2]
  {
    assert e.copy[..1] == [Name("services")] && e.copy == [Name("services")] + e.copy[1..];
    assert e.copy[..2] == [Name("services")] + e.copy[1..2];
    Shorter(target + [Name("services")], e.copy[1..], path);
    assert target + e.copy == target + [Name("services")] + e.copy[1..];
    assert target + e.copy[..2] == target + [Name("services")] + e.copy[1..2];
  }

  /** What staging looks like before the manifest is written: owned, and with nothing in the manifest's place. */
  ghost predicate Owned(files: Files, target: Path) {
    Look(files, target) == Some(Directory) && Look(files, target + MARKER) == Some(Marker)
  }

  /** Copying one directory touches neither the marker nor the manifest nor the place of another copy. */
  lemma CopyTouches(before: Files, after: Files, target: Path, e: Entry, other: Entry)
    requires CopyPlace(e) && CopyPlace(other)
    requires forall path | !(target + e.copy <= path) :: Look(after, path) == Look(WithParents(before, target, e), path)
    ensures Owned(before, target) ==> Owned(after, target)
    ensures Look(after, target + MANIFEST) == Look(before, target + MANIFEST)
    ensures SameOutside(after, before, target)
    ensures forall path | !(target + [Name("services")] <= path) :: Look(after, path) == Look(before, path)
    ensures e.copy != other.copy && Empty(before, target + other.copy) ==> Empty(after, target + other.copy)
  {
    var prepared := WithParents(before, target, e);
    forall path | |path| < |target| + 3
      ensures Look(after, path) == Look(prepared, path)
    {
    }
    assert (target + MARKER)[|target|] != (target + e.copy[..1])[|target|];
    assert (target + MANIFEST)[|target|] != (target + e.copy[..1])[|target|];
    forall path | !(target <= path)
      ensures Look(after, path) == Look(before, path)
    {
      assert target <= target + e.copy[..1] && target <= target + e.copy[..2];
      Shorter(target, e.copy, path);
    }
    forall path | !(target + [Name("services")] <= path)
      ensures Look(after, path) == Look(before, path)
    {
      CopiedBelow(target, e, path);
    }
    if e.copy != other.copy && Empty(before, target + other.copy) {
      forall path | target + other.copy <= path
        ensures path !in after
      {
        if target + e.copy <= path {
          CopiesSeparate(target, e, other, path);
        }
        assert Look(after, path) == Look(prepared, path);
      }
    }
  }

  lemma UnderServices(files: Files, target: Path, e: Entry)
    requires CopyPlace(e) && Empty(files, target + [Name("services")])
    ensures Empty(files, target + e.copy)
  {
    forall path | target + e.copy <= path
      ensures path !in files
    {
      assert target + [Name("services")] == (target + e.copy)[..|target| + 1] == path[..|target| + 1];
    }
  }

  lemma SourceKept(files: Files, target: Path, e: Entry)
    requires CopyPlace(e) && !Overlap(target, e.resolved)
    ensures !(target <= e.resolved) && Look(WithParents(files, target, e), e.resolved) == Look(files, e.resolved)
  {
    SourceOutside(target, e.resolved, []);
    assert e.resolved + [] == e.resolved && target <= target + e.copy[..1] && target <= target + e.copy[..2];
  }

  /** A successful copy adds one directory to those copied; the places of the later ones stay empty. */
  lemma CopyKeeps(inventory: Inventory, before: Files, after: Files, target: Path, stopped: Files, n: nat)
    requires Apart(inventory, target) && DistinctNames(inventory) && n < |Jobs(inventory)|
    requires CopyPlace(Jobs(inventory)[n])
    requires SameOutside(before, stopped, target) && AllCopied(before, target, stopped, Jobs(inventory)[..n])
    requires Look(stopped, Jobs(inventory)[n].resolved) == Some(Directory)
    requires after ==
        CopyTree(WithParents(before, target, Jobs(inventory)[n]), Jobs(inventory)[n].resolved,
        target + Jobs(inventory)[n].copy)
    ensures AllCopied(after, target, stopped, Jobs(inventory)[..n + 1])
  {
    var jobs := Jobs(inventory);
    JobsApart(inventory, target, n);
    JobPlaces(inventory);
    forall m | 0 <= m <= n
      ensures Staged(after, target, stopped, jobs[m]) && Look(stopped, jobs[m].resolved) == Some(Directory)
    {
      if m < n {
        JobsDistinct(inventory, m, n);
        assert jobs[..n][m] == jobs[m];
      }
      CopyStep(before, after, target, stopped, jobs[n], jobs[m]);
    }
  }

  /** Every declared directory is there. */
  predicate SourcesThere(files: Files, inventory: Inventory) {
    forall e | e in Jobs(inventory) :: Look(files, e.resolved) == Some(Directory)
  }

  /** Copies every declared directory while all writers are stopped. */
  method CopyAll(host: Host, inventory: Inventory, target: Path) returns (exit: Exit)
    requires AllStopped(inventory, host.units) && Apart(inventory, target) && DistinctNames(inventory)
    requires Owned(host.files, target) && Empty(host.files, target + [Name("services")])
    modifies host`files
    ensures !exit.Refused? && (host.reliable ==> !exit.Killed?)
    ensures Owned(host.files, target) && Look(host.files, target + MANIFEST) == Look(old(host.files), target + MANIFEST)
    ensures SameOutside(host.files, old(host.files), target)
    ensures forall path | !(target + [Name("services")] <= path) ::
        Look(host.files, path) == Look(old(host.files), path)
    ensures exit.Done? ==> AllCopied(host.files, target, old(host.files), Jobs(inventory))
    ensures host.reliable && SourcesThere(old(host.files), inventory) ==> exit.Done?
  {
    ghost var stopped := host.files;
    var jobs := Jobs(inventory);
    JobPlaces(inventory);
    forall m | 0 <= m < |jobs|
      ensures Empty(host.files, target + jobs[m].copy)
    {
      assert CopyPlace(jobs[m]);
      UnderServices(host.files, target, jobs[m]);
    }
    for n := 0 to |jobs|
      invariant Owned(host.files, target) && Look(host.files, target + MANIFEST) == Look(stopped, target + MANIFEST)
      invariant SameOutside(host.files, stopped, target)
      invariant forall path | !(target + [Name("services")] <= path) :: Look(host.files, path) == Look(stopped, path)
      invariant forall m | n <= m < |jobs| :: Empty(host.files, target + jobs[m].copy)
      invariant AllCopied(host.files, target, stopped, jobs[..n])
    {
      ghost var before := host.files;
      assert CopyPlace(jobs[n]);
      JobsApart(inventory, target, n);
      SourceKept(before, target, jobs[n]);
      host.files := WithParents(host.files, target, jobs[n]);
      exit := host.Copy(inventory, jobs[n].resolved, target + jobs[n].copy);
      CopyTouches(before, host.files, target, jobs[n], jobs[n]);
      if !exit.Done? {
        return;
      }
      forall m | n < m < |jobs|
        ensures Empty(host.files, target + jobs[m].copy)
      {
        JobsDistinct(inventory, n, m);
        CopyTouches(before, host.files, target, jobs[n], jobs[m]);
      }
      CopyKeeps(inventory, before, host.files, target, stopped, n);
    }
    assert jobs[..|jobs|] == jobs;
    exit := Done;
  }

  /** The staging directory with the journal absent: only the marker is in it. */
  ghost predicate Begun(files: Files, target: Path) {
    Owned(files, target) && forall path | target <= path && path != target && path != target + MARKER :: path !in files
  }

  /** The manifest is there only after every declared directory was copied with all writers stopped. */
  ghost predicate ManifestMeans(files: Files, inventory: Inventory, target: Path, stopped: Files) {
    target + MANIFEST in files ==>
        AllCopied(files, target, stopped, Jobs(inventory)) && SameOutside(files, stopped, target)
  }

  lemma PreparesAside(before: Files, after: Files, target: Path)
    requires Begun(before, target) && forall path | target <= path :: Look(after, path) == Look(before, path)
    ensures Begun(after, target) && target + MANIFEST !in after
  {
    assert target <= target + MARKER && target <= target + MANIFEST;
    assert (target + MARKER)[|target|] != (target + MANIFEST)[|target|];
    assert Look(after, target + MANIFEST) == Look(before, target + MANIFEST);
    forall path | target <= path && path != target && path != target + MARKER
      ensures path !in after
    {
      assert Look(after, path) == Look(before, path);
    }
  }

  /** Dumps go where neither the marker nor the manifest nor any copy is. */
  lemma DumpsAside(before: Files, after: Files, target: Path)
    requires Begun(before, target)
    requires forall path | !(target + DATABASES <= path) :: Look(after, path) == Look(before, path)
    ensures Owned(after, target) && target + MANIFEST !in after && Empty(after, target + [Name("services")])
  {
    assert (target + DATABASES)[|target|] != (target + MARKER)[|target|];
    assert (target + DATABASES)[|target|] != (target + MANIFEST)[|target|];
    assert (target + MARKER)[|target|] != (target + MANIFEST)[|target|];
    assert Look(after, target + MANIFEST) == Look(before, target + MANIFEST);
    forall path | target + [Name("services")] <= path
      ensures path !in after
    {
      Shorter(target, [Name("services")], path);
      assert path[|target|] == Name("services");
      assert (target + MARKER)[|target|] != Name("services");
      assert Look(after, path) == Look(before, path);
    }
  }

  /** Writing the manifest leaves the copies as they are. */
  lemma ManifestAside(before: Files, after: Files, inventory: Inventory, target: Path, stopped: Files)
    requires AllCopied(before, target, stopped, Jobs(inventory)) && SameOutside(before, stopped, target)
    requires Owned(before, target)
    requires forall path | path != target + MANIFEST :: Look(after, path) == Look(before, path)
    ensures AllCopied(after, target, stopped, Jobs(inventory)) && SameOutside(after, stopped, target)
    ensures Owned(after, target)
  {
    var jobs := Jobs(inventory);
    assert (target + MARKER)[|target|] != (target + MANIFEST)[|target|];
    forall n | 0 <= n < |jobs|
      ensures Staged(after, target, stopped, jobs[n])
    {
      JobPlaces(inventory);
      assert CopyPlace(jobs[n]);
    }
  }

  /** Where nothing but the marker is, dumps can go. */
  lemma BegunForDumps(files: Files, target: Path)
    requires WellFormed(files) && Begun(files, target)
    ensures DumpsPlace(files, target)
  {
    assert (target + DATABASES)[|target|] != (target + MARKER)[|target|];
    forall path | target + DATABASES <= path
      ensures path !in files
    {
      Shorter(target, DATABASES, path);
      assert path[|target|] == Name("databases");
    }
  }

  /** No service has a command of its own to run before the copies. */
  predicate Unprepared(inventory: Inventory) {
    forall i | 0 <= i < |inventory| :: !inventory[i].prepares
  }

  /** The services with a command of their own, in the order of the inventory. */
  ghost function Preparing(inventory: Inventory): seq<string> {
    if inventory == [] then []
    else
      var last := inventory[|inventory| - 1];
      Preparing(inventory[..|inventory| - 1]) + if last.prepares then [last.name] else []
  }

  lemma PreparingNext(inventory: Inventory, i: nat)
    requires i < |inventory|
    ensures Preparing(inventory[..i + 1]) ==
      Preparing(inventory[..i]) + (if inventory[i].prepares then [inventory[i].name] else [])
  {
    assert inventory[..i + 1][..i] == inventory[..i];
  }

  /** Stops the writers and runs the commands of the services, none before all writers are stopped. */
  method StopAndPrepare(host: Host, inventory: Inventory, target: Path) returns (exit: Exit)
    requires host.journal.Absent? && WellFormed(host.files)
    modifies host`files, host`units, host`journal, host`prepares
    ensures !exit.Refused? && WellFormed(host.files)
    ensures Safe(inventory, old(host.units), host.units, host.journal)
    ensures exit.Done? ==> AllStopped(inventory, host.units) && host.journal.Written?
    ensures exit.Done? ==> host.prepares == old(host.prepares) + Preparing(inventory)
    ensures forall path | target <= path :: Look(host.files, path) == Look(old(host.files), path)
    ensures Unprepared(inventory) ==> host.files == old(host.files)
    ensures host.reliable ==> (exit.Done? <==> Settled(inventory, old(host.units)))
    ensures host.reliable ==> !exit.Killed? && !host.journal.Torn?
  {
    exit := StopWriters(host, inventory);
    assert Preparing(inventory[..0]) == [] && old(host.prepares) + [] == old(host.prepares);
    for i := 0 to |inventory|
      invariant !exit.Refused? && Safe(inventory, old(host.units), host.units, host.journal)
      invariant WellFormed(host.files)
      invariant exit.Done? ==> AllStopped(inventory, host.units) && host.journal.Written?
      invariant exit.Done? ==> host.prepares == old(host.prepares) + Preparing(inventory[..i])
      invariant forall path | target <= path :: Look(host.files, path) == Look(old(host.files), path)
      invariant Unprepared(inventory) ==> host.files == old(host.files)
      invariant host.reliable ==> (exit.Done? <==> Settled(inventory, old(host.units)))
      invariant host.reliable ==> !exit.Killed? && !host.journal.Torn?
    {
      PreparingNext(inventory, i);
      if exit.Done? && inventory[i].prepares {
        exit := host.Prepare(inventory, inventory[i].name, target);
      }
    }
    assert inventory[..|inventory|] == inventory;
  }

  /** Everything between the marker and the resumption: the part that is rolled back when it raises. */
  method Stage(host: Host, inventory: Inventory, target: Path, databases: seq<string>) returns (exit: Exit,
        ghost stopped: Files)
    requires host.journal.Absent? && Apart(inventory, target) && DistinctNames(inventory) && Begun(host.files, target)
    requires WellFormed(host.files)
    modifies host`files, host`units, host`journal, host`prepares
    ensures !exit.Refused? && WellFormed(stopped)
    ensures Safe(inventory, old(host.units), host.units, host.journal)
    ensures Owned(host.files, target) && ManifestMeans(host.files, inventory, target, stopped)
    ensures exit.Done? ==> Look(host.files, target + MANIFEST) == Some(Manifest(Jobs(inventory)))
    ensures exit.Done? ==> host.journal.Written? && Dumped(host.files, target, databases)
    ensures exit.Done? ==> host.prepares == old(host.prepares) + Preparing(inventory)
    ensures SameOutside(host.files, stopped, target)
    ensures host.reliable ==> !exit.Killed? && !host.journal.Torn?
    ensures Unprepared(inventory) ==> SameOutside(stopped, old(host.files), target)
    ensures host.reliable ==> (exit.Done? <==> Settled(inventory, old(host.units)) && SourcesThere(stopped, inventory))
  {
    exit := StopAndPrepare(host, inventory, target);
    PreparesAside(old(host.files), host.files, target);
    stopped := host.files;
    if !exit.Done? {
      return;
    }
    ghost var prepared := host.files;
    BegunForDumps(prepared, target);
    exit := DumpAll(host, inventory, target, databases);
    DumpsAside(prepared, host.files, target);
    if !exit.Done? {
      return;
    }
    stopped := host.files;
    exit := CopyAll(host, inventory, target);
    if !exit.Done? {
      return;
    }
    ghost var copied := host.files;
    exit := host.Write(target + MANIFEST, Manifest(Jobs(inventory)));
    ManifestAside(copied, host.files, inventory, target, stopped);
    if exit.Done? {
      StaysDumped(stopped, host.files, target, databases);
    }
  }

  lemma NothingBelow(files: Files, target: Path)
    requires WellFormed(files) && target !in files
    ensures Empty(files, target)
  {
    forall path | target <= path
      ensures path !in files
    {
      if path in files {
        AncestorsAreDirectories(files, path, target);
      }
    }
  }

  /** The marker is the first thing in the staging directory. */
  lemma MarkerAside(before: Files, after: Files, target: Path)
    requires Look(before, target) == Some(Directory)
    requires forall path | target <= path && path != target :: path !in before
    requires forall path | path != target + MARKER :: Look(after, path) == Look(before, path)
    ensures target + MANIFEST !in after
    ensures Look(after, target + MARKER) == Some(Marker) ==> Begun(after, target)
  {
    assert (target + MARKER)[|target|] != (target + MANIFEST)[|target|];
    assert Look(after, target + MANIFEST) == Look(before, target + MANIFEST);
    assert Look(after, target) == Some(Directory);
    forall path | target <= path && path != target && path != target + MARKER
      ensures path !in after
    {
      assert Look(after, path) == Look(before, path);
    }
  }

  /** Some of the staged nodes may be gone; nothing else differs. */
  ghost predicate PartOf(files: Files, staged: Files, target: Path) {
    && SameOutside(files, staged, target)
    && forall path | target <= path && path in files :: Look(files, path) == Look(staged, path)
  }

  lemma SourcesStay(inventory: Inventory, target: Path, a: Files, b: Files)
    requires Apart(inventory, target) && SameOutside(a, b, target)
    ensures SourcesThere(a, inventory) == SourcesThere(b, inventory)
  {
    forall e | e in Jobs(inventory)
      ensures Look(a, e.resolved) == Look(b, e.resolved)
    {
      var n :| 0 <= n < |Jobs(inventory)| && Jobs(inventory)[n] == e;
      JobsApart(inventory, target, n);
      SourceOutside(target, e.resolved, []);
      assert e.resolved + [] == e.resolved;
    }
  }

  /** Makes the staging directory and marks it as owned. */
  method BeginStaging(host: Host, target: Path) returns (exit: Exit)
    requires WellFormed(host.files) && target !in host.files
    modifies host`files
    ensures !exit.Refused? && SameOutside(host.files, old(host.files), target)
    ensures Bare(host.files, target) && target + MANIFEST !in host.files
    ensures exit.Done? ==> WellFormed(host.files) && Begun(host.files, target)
    ensures host.reliable ==> !exit.Killed? && (exit.Done? <==> Puttable(old(host.files), target, Directory))
    ensures host.reliable && exit.Raised? ==> host.files == old(host.files)
  {
    NothingBelow(host.files, target);
    assert target <= target + MANIFEST && target <= target + MARKER;
    exit := host.Luck();
    if exit.Done? && !Puttable(host.files, target, Directory) {
      exit := Raised;
    }
    if !exit.Done? {
      return;
    }
    PutKeepsWellFormed(host.files, target, Directory);
    host.files := host.files[target := Directory];
    ghost var made := host.files;
    assert Parent(target + MARKER) == target;
    exit := host.Write(target + MARKER, Marker);
    MarkerAside(made, host.files, target);
    forall path | target <= path && path != target && path != target + MARKER
      ensures path !in host.files
    {
      assert Look(host.files, path) == Look(made, path);
    }
  }

  /** The rollback of a stage that raised, and in any case but a kill the resumption of the writers. */
  method Conclude(host: Host, inventory: Inventory, target: Path, staging: Exit, ghost initial: UnitStates)
    returns (exit: Exit)
    requires !staging.Refused? && Safe(inventory, initial, host.units, host.journal)
    modifies host`files, host`units, host`journal, host`starts, host`removals
    ensures !exit.Refused? && Safe(inventory, initial, host.units, host.journal)
    ensures PartOf(host.files, old(host.files), target) && (staging.Done? ==> host.files == old(host.files))
    ensures exit.Done? ==> staging.Done? && host.journal.Absent? && Recovered(inventory, initial, host.units)
    ensures exit.Raised? ==> Recovered(inventory, initial, host.units) || Attempted(host, old(host.starts))
    ensures exit.Raised? ==> staging.Done? || host.removals == old(host.removals) + [target]
    ensures host.reliable && !staging.Killed? && !old(host.journal).Torn? ==>
      && exit == staging && host.journal.Absent? && Recovered(inventory, initial, host.units)
      && (exit.Raised? ==> target !in host.files)
  {
    exit := staging;
    if exit.Raised? {
      var removal := host.Remove(target);
      if removal.Killed? {
        return Killed;
      }
    }
    if !exit.Killed? {
      var resumed := Resume(host, inventory, initial);
      if !resumed.Done? {
        exit := resumed;
      }
    }
  }

  /** Nothing is in the staging directory but the marker or a part of it, if the directory is there at all. */
  ghost predicate Bare(files: Files, target: Path) {
    forall path | target <= path && path != target && path != target + MARKER :: path !in files
  }

  /** What a snapshot asks of the host: a place for staging, no journal, and units that are loaded and settled. */
  predicate CanBegin(inventory: Inventory, files: Files, units: UnitStates, journal: Journal, target: Path) {
    && Apart(inventory, target) && target !in files && journal.Absent?
    && Puttable(files, target, Directory) && Settled(inventory, units)
  }

  /**
   * The whole snapshot. `stopped` is the file system while it was copied; `staged` is what there was before a
   * rollback, of which an interrupted one leaves a part.
   */
  method Snapshot(host: Host, inventory: Inventory, target: Path, databases: seq<string>)
    returns (exit: Exit, ghost stopped: Files, ghost staged: Files)
    requires WellFormed(host.files) && DistinctNames(inventory)
    modifies host`files, host`units, host`journal, host`starts, host`removals, host`prepares
    ensures exit.Refused? <==> !Apart(inventory, target) || target in old(host.files) || !old(host.journal).Absent?
    ensures exit.Refused? ==>
        host.files == old(host.files) && host.units == old(host.units) && host.journal == old(host.journal)
    ensures !exit.Refused? ==> Safe(inventory, old(host.units), host.units, host.journal)
    ensures !exit.Refused? ==> ManifestMeans(staged, inventory, target, stopped) && PartOf(host.files, staged, target)
    ensures WellFormed(stopped)
    ensures exit.Done? ==> host.files == staged && Look(staged, target + MANIFEST) == Some(Manifest(Jobs(inventory)))
    ensures exit.Done? ==> Dumped(host.files, target, databases)
    ensures exit.Done? ==> host.prepares == old(host.prepares) + Preparing(inventory)
    ensures exit.Done? ==> host.journal.Absent? && Recovered(inventory, old(host.units), host.units)
    ensures !exit.Refused? && host.journal.Written? ==> Owned(staged, target)
    ensures !exit.Refused? ==> SameOutside(host.files, stopped, target)
    ensures exit.Raised? ==>
      || Recovered(inventory, old(host.units), host.units)
      || Attempted(host, old(host.starts))
    ensures exit.Raised? ==>
      || host.removals == old(host.removals) + [target]
      || (host.units == old(host.units) && host.journal.Absent? && Bare(host.files, target))
      || Look(host.files, target + MANIFEST) == Some(Manifest(Jobs(inventory)))
    ensures host.reliable && !exit.Refused? ==>
      && !exit.Killed? && host.journal.Absent? && Recovered(inventory, old(host.units), host.units)
      && (exit.Raised? ==> target !in host.files)
    ensures host.reliable ==> (exit.Done? <==>
      && CanBegin(inventory, old(host.files), old(host.units), old(host.journal), target)
      && SourcesThere(stopped, inventory))
    ensures Unprepared(inventory) ==>
      && SameOutside(stopped, old(host.files), target)
      && (Apart(inventory, target) ==> SourcesThere(stopped, inventory) == SourcesThere(old(host.files), inventory))
  {
    stopped, staged := host.files, host.files;
    ghost var start := host.files;
    if !Apart(inventory, target) || target in host.files || !host.journal.Absent? {
      return Refused, stopped, staged;
    }
    exit := BeginStaging(host, target);
    staged := host.files;
    if !exit.Done? {
      return;
    }
    exit, stopped := Stage(host, inventory, target, databases);
    staged := host.files;
    if Unprepared(inventory) {
      SourcesStay(inventory, target, stopped, start);
    }
    exit := Conclude(host, inventory, target, exit, old(host.units));
  }

  /** No removal of staging content, whole or partial, reaches a declared directory. */
  lemma SourcesSurvive(inventory: Inventory, target: Path, staged: Files, files: Files, i: nat, j: nat, r: Path)
    requires Apart(inventory, target) && SameOutside(files, staged, target)
    requires i < |inventory| && j < |inventory[i].paths|
    ensures Look(files, inventory[i].paths[j] + r) == Look(staged, inventory[i].paths[j] + r)
  {
    SourceOutside(target, inventory[i].paths[j], r);
  }

  /**
   * Cleanup after a snapshot that ended in any way. Every writer runs again unless an interrupted rollback had
   * already removed the marker: then cleanup refuses, and the writers stay as they were.
   */
  method SnapshotThenCleanup(host: Host, inventory: Inventory, target: Path, databases: seq<string>)
    returns (first: Exit, second: Exit, ghost staged: Files, ghost files: Files, ghost units: UnitStates)
    requires WellFormed(host.files) && DistinctNames(inventory)
    requires Apart(inventory, target) && target !in host.files && host.journal.Absent?
    modifies host
    ensures Recovered(inventory, old(host.units), host.units) <==>
        Recovered(inventory, old(host.units), units) || !Unowned(files, target)
    ensures !Recovered(inventory, old(host.units), host.units) ==>
        Unowned(files, target) && PartOf(files, staged, target) && Owned(staged, target)
    ensures second.Refused? <==> Unowned(files, target)
    ensures second.Done? ==> target !in host.files && host.journal.Absent?
    ensures SameOutside(host.files, files, target)
  {
    ghost var stopped;
    first, stopped, staged := Snapshot(host, inventory, target, databases);
    files, units := host.files, host.units;
    ghost var journal := host.journal;
    host.reliable := true;
    second := Cleanup(host, inventory, target, old(host.units));
    if !journal.Written? {
      NothingToRecover(inventory, old(host.units), units, journal);
    }
    if !host.journal.Written? && !second.Refused? {
      NothingToRecover(inventory, old(host.units), host.units, host.journal);
    }
  }

  /** Losing the marker while a journalled writer is down is enough to make cleanup refuse. */
  lemma LostMarker(target: Path, staged: Files)
    requires Owned(staged, target)
    ensures
      var files := map path | path in staged && path != target + MARKER :: staged[path];
      PartOf(files, staged, target) && Unowned(files, target)
  {
    var files := map path | path in staged && path != target + MARKER :: staged[path];
    assert target <= target + MARKER && target != target + MARKER;
    forall path | !(target <= path)
      ensures Look(files, path) == Look(staged, path)
    {
    }
  }

  const WRITER := "app.service"
  const SOURCE: Path := [Name("var"), Name("lib"), Name("app")]
  const STAGING: Path := [Name("backup")]

  /**
   * The exception is real. One writer ran; it was journalled and stopped, the copy failed, and the rollback was
   * killed after it had removed the marker. The state is one that the run may leave, and cleanup refuses it.
   */
  method RollbackCanStrandWriters() returns (exit: Exit, host: Host, inventory: Inventory, ghost initial: UnitStates,
        ghost staged: Files)
    ensures Apart(inventory, STAGING) && DistinctNames(inventory) && Owned(staged, STAGING)
    ensures Safe(inventory, initial, host.units, host.journal) && host.journal == Written([WRITER])
    ensures PartOf(host.files, staged, STAGING) && host.reliable
    ensures exit.Refused? && WRITER in initial && Running(initial[WRITER]) && !Recovered(inventory, initial, host.units)
  {
    inventory := [Service("app", [WRITER], [SOURCE], false)];
    initial := map[WRITER := Active];
    staged := map[STAGING := Directory, STAGING + MARKER := Marker];
    var files: Files := map[STAGING := Directory];
    LostMarker(STAGING, staged);
    assert STAGING != STAGING + MARKER;
    assert files == map path | path in staged && path != STAGING + MARKER :: staged[path];
    assert Units(inventory) == {WRITER} by {
      assert WRITER in inventory[0].units;
    }
    assert RunningBefore(inventory, initial) == {WRITER};
    assert STAGING[0] != SOURCE[0];
    host := new Host(files, map[WRITER := Inactive], Written([WRITER]), true);
    exit := Cleanup(host, inventory, STAGING, initial);
  }

  /**
   * The round trip: entries of a manifest, in any order, bring back every recorded directory as it was while the
   * writers were stopped. The copies may lie anywhere apart from the directories, and whatever happened to the
   * directories since does not matter; a restore fails only where something else stands in a directory's way.
   */
  method RestoreManifest(disk: Disk, inventory: Inventory, target: Path, staging: Path, entries: seq<Entry>,
        ghost stopped: Files, ghost staged: Files)
    returns (ok: bool)
    requires Apart(inventory, staging) && AllCopied(staged, target, stopped, Jobs(inventory)) && WellFormed(stopped)
    requires SameTree(disk.files, staging, staged, target)
    requires forall e | e in entries :: e in Jobs(inventory)
    modifies disk
    ensures ok ==> forall e | e in entries :: SameTree(disk.files, e.resolved, stopped, e.resolved)
    ensures AllRestorable(old(disk.files), entries) ==> ok
    ensures forall path | Elsewhere(path, entries) :: Look(disk.files, path) == Look(old(disk.files), path)
    ensures Confined(old(disk.files), disk.files) && (Rooted(old(disk.files)) ==> Rooted(disk.files))
    ensures ok ==> forall e | e in entries :: BelowRoot(e)
  {
    forall e | e in entries
      ensures Look(stopped, e.resolved) == Some(Directory) && !Overlap(staging, e.resolved)
      ensures Staged(disk.files, staging, stopped, e)
    {
      var n :| 0 <= n < |Jobs(inventory)| && Jobs(inventory)[n] == e;
      JobsApart(inventory, staging, n);
      CopyMoved(disk.files, staging, staged, target, stopped, e);
    }
    ok := RestoreAll(disk, staging, entries, stopped);
    forall e | ok && e in entries
      ensures SameTree(disk.files, e.resolved, stopped, e.resolved) && BelowRoot(e)
    {
      var i :| 0 <= i < |entries| && entries[i] == e;
      assert Restored(disk.files, stopped, entries[i]);
    }
  }

  /** A copy is a copy wherever the staging directory is put. */
  lemma CopyMoved(files: Files, staging: Path, staged: Files, target: Path, stopped: Files, e: Entry)
    requires SameTree(files, staging, staged, target) && Staged(staged, target, stopped, e)
    ensures Staged(files, staging, stopped, e)
  {
    forall r: Path
      ensures Look(files, staging + e.copy + r) == Look(stopped, e.resolved + r)
    {
      assert staging + e.copy + r == staging + (e.copy + r) && target + e.copy + r == target + (e.copy + r);
      assert Look(files, staging + (e.copy + r)) == Look(staged, target + (e.copy + r));
    }
  }

  /** Any file system with the tree at `staging` replaced by the one that was saved from `target`. */
  function Brought(later: Files, staging: Path, saved: Files, target: Path): Files {
    var brought := set path | path in saved && target <= path :: staging + Below(target, path);
    map path | path in later.Keys + brought &&
        (if staging <= path then target + Below(staging, path) in saved else path in later) ::
      if staging <= path then saved[target + Below(staging, path)] else later[path]
  }

  lemma BroughtTree(later: Files, staging: Path, saved: Files, target: Path)
    ensures SameTree(Brought(later, staging, saved, target), staging, saved, target)
  {
    var files := Brought(later, staging, saved, target);
    forall r: Path
      ensures Look(files, staging + r) == Look(saved, target + r)
    {
      assert Below(staging, staging + r) == r && Below(target, target + r) == r;
    }
  }

  /**
   * The whole way. A snapshot is taken and its staging directory saved; later, on a file system of which nothing is
   * known, it is brought back to some other place, its manifest is read, and the directories are restored. Then every
   * declared directory is what it was while all writers were stopped.
   */
  method SnapshotThenRestore(host: Host, inventory: Inventory, target: Path, databases: seq<string>, later: Files,
        staging: Path)
    returns (exit: Exit, ok: bool, disk: Disk, ghost stopped: Files)
    requires WellFormed(host.files) && DistinctNames(inventory) && Apart(inventory, staging)
    modifies host
    ensures exit.Done? && ok ==> forall i, j | 0 <= i < |inventory| && 0 <= j < |inventory[i].paths| ::
        SameTree(disk.files, inventory[i].paths[j], stopped, inventory[i].paths[j])
    ensures
      && exit.Done?
      && AllRestorable(Brought(later, staging, host.files, target), Jobs(inventory))
      ==> ok
    ensures exit.Done? ==> forall path | Elsewhere(path, Jobs(inventory)) && !(staging <= path) ::
        Look(disk.files, path) == Look(later, path)
    ensures exit.Done? ==> Confined(Brought(later, staging, host.files, target), disk.files)
    ensures ok ==> exit.Done?
    ensures old(host.reliable) ==> (exit.Done? <==>
      && CanBegin(inventory, old(host.files), old(host.units), old(host.journal), target)
      && SourcesThere(stopped, inventory))
    ensures Unprepared(inventory) ==>
      && SameOutside(stopped, old(host.files), target)
      && (Apart(inventory, target) ==> SourcesThere(stopped, inventory) == SourcesThere(old(host.files), inventory))
  {
    ghost var staged;
    exit, stopped, staged := Snapshot(host, inventory, target, databases);
    var files := Brought(later, staging, host.files, target);
    disk := new Disk(files);
    ok := false;
    if exit.Done? {
      BroughtTree(later, staging, host.files, target);
      assert Look(files, staging + MANIFEST) == Some(Manifest(Jobs(inventory)));
      var entries := files[staging + MANIFEST].entries;
      ok := RestoreManifest(disk, inventory, target, staging, entries, stopped, staged);
      EveryDirectory(disk.files, stopped, inventory);
    }
  }

  /** The jobs cover every declared directory. */
  lemma EveryDirectory(files: Files, stopped: Files, inventory: Inventory)
    ensures (forall e | e in Jobs(inventory) :: SameTree(files, e.resolved, stopped, e.resolved)) ==>
        forall i, j | 0 <= i < |inventory| && 0 <= j < |inventory[i].paths| ::
          SameTree(files, inventory[i].paths[j], stopped, inventory[i].paths[j])
  {
    forall i, j | 0 <= i < |inventory| && 0 <= j < |inventory[i].paths|
      ensures (forall e | e in Jobs(inventory) :: SameTree(files, e.resolved, stopped, e.resolved)) ==>
          SameTree(files, inventory[i].paths[j], stopped, inventory[i].paths[j])
    {
      JobsComplete(inventory, i, j);
      var n :| 0 <= n < |Jobs(inventory)| && Jobs(inventory)[n].resolved == inventory[i].paths[j];
      assert Jobs(inventory)[n] in Jobs(inventory);
    }
  }
}
