/**
 * The manifest-driven restore: every recorded directory is removed and copied back from the staging
 * directory. It is the inverse of staging, in any order of the entries.
 */
module Restore {
  import opened FileTrees

  const STATE_ROOT: Path := [Name("var"), Name("lib")]

  function Parent(path: Path): Path {
    if path == [] then [] else path[..|path| - 1]
  }

  /** Every node lies in a directory. */
  ghost predicate WellFormed(files: Files) {
    forall path {:trigger Parent(path)} | path in files && path != [] ::
        Parent(path) in files && files[Parent(path)] == Directory
  }

  /** The strict ancestors of a path below the root. */
  function Ancestors(path: Path): set<Path> {
    set i | 0 < i < |path| :: path[..i]
  }

  function WithDirectories(files: Files, directories: set<Path>): Files {
    map path | path in files.Keys + directories :: if path in files then files[path] else Directory
  }

  lemma {:induction false} AncestorsAreDirectories(files: Files, path: Path, ancestor: Path)
    requires WellFormed(files) && path in files && ancestor <= path && ancestor != path
    ensures ancestor in files && files[ancestor] == Directory
    decreases |path|
  {
    var parent := Parent(path);
    assert parent + [path[|path| - 1]] == path;
    if ancestor != parent {
      assert ancestor == path[..|ancestor|] == parent[..|ancestor|];
      AncestorsAreDirectories(files, parent, ancestor);
    }
  }

  /** A node is put into a directory, and no directory is replaced by something else. */
  predicate Puttable(files: Files, path: Path, node: Node) {
    && path != [] && Look(files, Parent(path)) == Some(Directory)
    && (Look(files, path) == Some(Directory) ==> node == Directory)
  }

  lemma PutKeepsWellFormed(files: Files, path: Path, node: Node)
    requires WellFormed(files) && Puttable(files, path, node)
    ensures WellFormed(files[path := node])
  {
  }

  lemma RemoveKeepsWellFormed(files: Files, root: Path)
    requires WellFormed(files)
    ensures WellFormed(RemoveTree(files, root))
  {
    var after := RemoveTree(files, root);
    forall path | path in after && path != []
      ensures Parent(path) in after && after[Parent(path)] == Directory
    {
      assert Parent(path) in files && files[Parent(path)] == Directory;
      assert root <= Parent(path) ==> root <= path;
    }
  }

  /** The directory holds what it held while the writers were stopped. */
  ghost predicate Restored(files: Files, stopped: Files, e: Entry) {
    SameTree(files, e.resolved, stopped, e.resolved)
  }

  /** The staging directory has an untouched copy of the recorded directory. */
  ghost predicate Staged(files: Files, staging: Path, stopped: Files, e: Entry) {
    SameTree(files, staging + e.copy, stopped, e.resolved)
  }

  /** What restoring one entry makes of the files. */
  function RestoreOne(files: Files, staging: Path, e: Entry): Files {
    CopyTree(WithDirectories(Cleared(files, e.resolved), Ancestors(e.resolved)), staging + e.copy, e.resolved)
  }

  function Cleared(files: Files, path: Path): Files {
    if path in files then RemoveTree(files, path) else files
  }

  lemma AncestorOverlaps(staging: Path, path: Path, ancestor: Path)
    requires ancestor in Ancestors(path) && staging <= ancestor
    ensures Overlap(staging, path)
  {
    var i :| 0 < i < |path| && ancestor == path[..i];
    assert staging == ancestor[..|staging|] == path[..|staging|];
  }

  lemma RestoreOneAt(files: Files, staging: Path, e: Entry, path: Path)
    requires !Overlap(staging, e.resolved)
    ensures
      Look(RestoreOne(files, staging, e), path) ==
      if e.resolved <= path then Look(files, staging + e.copy + Below(e.resolved, path))
      else if path in files then Some(files[path])
      else if path in Ancestors(e.resolved) then Some(Directory)
      else None
  {
    var prepared := WithDirectories(Cleared(files, e.resolved), Ancestors(e.resolved));
    CopyTreeAt(prepared, staging + e.copy, e.resolved, path);
    if e.resolved <= path {
      var from := staging + e.copy + Below(e.resolved, path);
      assert staging <= from;
      if e.resolved <= from {
        CommonDescendant(staging, e.resolved, from);
      }
      if from in Ancestors(e.resolved) {
        AncestorOverlaps(staging, e.resolved, from);
      }
    }
  }

  /** One entry was restored: its directory is the copy, missing ancestors were made, and nothing else differs. */
  ghost predicate OneRestored(before: Files, after: Files, staging: Path, e: Entry) {
    forall path {:trigger Look(after, path)} :: Look(after, path) ==
      if e.resolved <= path then Look(before, staging + e.copy + Below(e.resolved, path))
      else if path in before then Some(before[path])
      else if path in Ancestors(e.resolved) then Some(Directory)
      else None
  }

  lemma RestoresOne(files: Files, staging: Path, e: Entry)
    requires !Overlap(staging, e.resolved)
    ensures OneRestored(files, RestoreOne(files, staging, e), staging, e)
  {
    forall path {
      RestoreOneAt(files, staging, e, path);
    }
  }

  /** Copies stay untouched while directories elsewhere are restored. */
  lemma StagedAfter(files: Files, after: Files, staging: Path, stopped: Files, e: Entry, other: Entry)
    requires !Overlap(staging, e.resolved) && Staged(files, staging, stopped, other)
    requires OneRestored(files, after, staging, e)
    ensures Staged(after, staging, stopped, other)
  {
    forall r: Path
      ensures Look(after, staging + other.copy + r) == Look(stopped, other.resolved + r)
    {
      var path := staging + other.copy + r;
      assert staging <= path;
      if e.resolved <= path {
        CommonDescendant(staging, e.resolved, path);
      }
      if path in Ancestors(e.resolved) {
        AncestorOverlaps(staging, e.resolved, path);
      }
    }
  }

  lemma StagedCleared(files: Files, staging: Path, stopped: Files, path: Path, other: Entry)
    requires !Overlap(staging, path) && Staged(files, staging, stopped, other)
    ensures Staged(RemoveTree(files, path), staging, stopped, other)
  {
    forall r: Path
      ensures Look(RemoveTree(files, path), staging + other.copy + r) == Look(stopped, other.resolved + r)
    {
      assert staging <= staging + other.copy + r;
      if path <= staging + other.copy + r {
        CommonDescendant(staging, path, staging + other.copy + r);
      }
    }
  }

  lemma RestoredAfter(files: Files, after: Files, staging: Path, stopped: Files, e: Entry)
    requires !Overlap(staging, e.resolved) && Staged(files, staging, stopped, e)
    requires OneRestored(files, after, staging, e)
    ensures Restored(after, stopped, e)
  {
    forall r: Path
      ensures Look(after, e.resolved + r) == Look(stopped, e.resolved + r)
    {
      assert Below(e.resolved, e.resolved + r) == r;
    }
  }

  /** Restoring a directory, even one inside or around another, leaves a restored directory restored. */
  lemma StaysRestored(files: Files, after: Files, staging: Path, stopped: Files, e: Entry, other: Entry)
    requires WellFormed(stopped) && e.resolved in stopped
    requires !Overlap(staging, e.resolved) && Staged(files, staging, stopped, e) && Restored(files, stopped, other)
    requires OneRestored(files, after, staging, e)
    ensures Restored(after, stopped, other)
  {
    forall r: Path
      ensures Look(after, other.resolved + r) == Look(stopped, other.resolved + r)
    {
      var path := other.resolved + r;
      if e.resolved <= path {
        var rest := Below(e.resolved, path);
        assert Look(files, staging + e.copy + rest) == Look(stopped, e.resolved + rest);
      } else if path in Ancestors(e.resolved) {
        var i :| 0 < i < |e.resolved| && path == e.resolved[..i];
        AncestorsAreDirectories(stopped, e.resolved, path);
      }
    }
  }

  /** Neither the path nor an ancestor of it is anything but a directory. */
  predicate Clear(files: Files, path: Path) {
    forall i | 0 < i <= |path| && path[..i] in files :: files[path[..i]] == Directory
  }

  /** What stands in no way is not put in the way by restoring another directory. */
  lemma StaysClear(files: Files, after: Files, staging: Path, stopped: Files, e: Entry, path: Path)
    requires WellFormed(stopped) && Look(stopped, path) == Some(Directory)
    requires !Overlap(staging, e.resolved) && Staged(files, staging, stopped, e) && Clear(files, path)
    requires OneRestored(files, after, staging, e)
    ensures Clear(after, path)
  {
    forall i | 0 < i <= |path| && path[..i] in after
      ensures after[path[..i]] == Directory
    {
      var ancestor := path[..i];
      assert Look(after, ancestor) == Some(after[ancestor]);
      if e.resolved <= ancestor {
        var rest := Below(e.resolved, ancestor);
        assert Look(files, staging + e.copy + rest) == Look(stopped, e.resolved + rest);
        if i < |path| {
          AncestorsAreDirectories(stopped, path, ancestor);
        } else {
          assert ancestor == path;
        }
      }
    }
  }

  /** A well-formed file system with its root. */
  ghost predicate Rooted(files: Files) {
    WellFormed(files) && Look(files, []) == Some(Directory)
  }

  lemma ParentBelow(root: Path, path: Path)
    requires root <= path && root != path
    ensures root <= Parent(path) && Below(root, Parent(path)) == Parent(Below(root, path))
  {
  }

  /** A restored directory and its ancestors lie in directories, as does everything else. */
  lemma StaysRooted(files: Files, after: Files, staging: Path, e: Entry)
    requires Rooted(files) && !Overlap(staging, e.resolved) && Clear(files, e.resolved)
    requires Look(files, staging + e.copy) == Some(Directory) && e.resolved != []
    requires OneRestored(files, after, staging, e)
    ensures Rooted(after)
  {
    assert Look(after, []) == Some(Directory);
    forall path | path in after && path != []
      ensures Look(after, Parent(path)) == Some(Directory)
    {
      assert Look(after, path) == Some(after[path]);
      if e.resolved <= path && path != e.resolved {
        RestoredParent(files, staging, e, path);
      } else if path == e.resolved || path in Ancestors(e.resolved) {
        AncestorClear(files, e.resolved, path);
      } else {
        assert e.resolved <= Parent(path) ==> e.resolved <= path;
        assert Parent(path) in files && files[Parent(path)] == Directory;
      }
    }
  }

  lemma RestoredParent(files: Files, staging: Path, e: Entry, path: Path)
    requires WellFormed(files) && e.resolved <= path && path != e.resolved
    requires staging + e.copy + Below(e.resolved, path) in files
    ensures e.resolved <= Parent(path)
    ensures Look(files, staging + e.copy + Below(e.resolved, Parent(path))) == Some(Directory)
  {
    var from := staging + e.copy + Below(e.resolved, path);
    ParentBelow(e.resolved, path);
    assert Parent(from) == staging + e.copy + Parent(Below(e.resolved, path));
  }

  /** What lies above the path is a directory, or missing and then an ancestor that is made. */
  lemma AncestorClear(files: Files, resolved: Path, path: Path)
    requires Rooted(files) && Clear(files, resolved) && resolved != []
    requires path == resolved || path in Ancestors(resolved)
    ensures !(resolved <= Parent(path))
    ensures Parent(path) in files ==> files[Parent(path)] == Directory
    ensures Parent(path) !in files ==> Parent(path) in Ancestors(resolved)
  {
    var i := |path|;
    assert path == resolved[..i] && Parent(path) == resolved[..i - 1];
  }

  class Disk {
    var files: Files

    constructor (files: Files)
      ensures this.files == files
    {
      this.files := files;
    }

    /** Removes the directory tree; fails on anything but a directory. */
    method Remove(path: Path) returns (ok: bool)
      modifies this
      ensures ok <==> (path in old(files) && old(files)[path] == Directory)
      ensures files == if ok then RemoveTree(old(files), path) else old(files)
    {
      ok := path in files && files[path] == Directory;
      if ok {
        files := RemoveTree(files, path);
      }
    }

    /** Creates the missing ancestors; fails if something else is in their place. */
    method MakeParents(path: Path) returns (ok: bool)
      modifies this
      ensures ok <==>
          forall ancestor | ancestor in Ancestors(path) && ancestor in old(files) :: old(files)[ancestor] == Directory
      ensures files == if ok then WithDirectories(old(files), Ancestors(path)) else old(files)
    {
      ok := forall ancestor | ancestor in Ancestors(path) && ancestor in files :: files[ancestor] == Directory;
      if ok {
        files := WithDirectories(files, Ancestors(path));
      }
    }

    method Copy(source: Path, destination: Path)
      modifies this
      ensures files == CopyTree(old(files), source, destination)
    {
      files := CopyTree(files, source, destination);
    }
  }

  /** The recorded directory lies below the state root, and nothing but directories is in its place or above. */
  predicate Restorable(files: Files, e: Entry) {
    STATE_ROOT <= e.resolved && e.resolved != STATE_ROOT && Clear(files, e.resolved)
  }

  lemma ClearAncestors(files: Files, path: Path)
    requires path != []
    ensures (Clear(files, path) <==>
      && (path in files ==> files[path] == Directory)
      && forall ancestor | ancestor in Ancestors(path) && ancestor in Cleared(files, path) ::
          Cleared(files, path)[ancestor] == Directory)
  {
    assert path[..|path|] == path;
    forall i | 0 < i < |path|
      ensures path[..i] in Ancestors(path) && !(path <= path[..i])
    {
    }
  }

  /** The recorded directory lies strictly below `/var/lib`. */
  ghost predicate BelowRoot(e: Entry) {
    [Name("var"), Name("lib")] < e.resolved
  }

  lemma PrefixOfPrefix(p: Path, q: Path, path: Path)
    ensures p <= q && q <= path ==> p <= path
  {
    if p <= q && q <= path {
      assert p == q[..|p|] == path[..|p|];
    }
  }

  lemma AncestorsBelowRoot(path: Path)
    requires [Name("var"), Name("lib")] < path
    ensures forall ancestor | ancestor in Ancestors(path) ::
        ancestor == [Name("var")] || [Name("var"), Name("lib")] <= ancestor
  {
    forall i | 0 < i < |path|
      ensures path[..i] == [Name("var")] || [Name("var"), Name("lib")] <= path[..i]
    {
      if i == 1 {
        assert path[..1] == [path[0]] == [Name("var")];
      }
    }
  }

  /** Neither in `/var/lib` nor the directory above it. */
  ghost predicate Outside(path: Path) {
    !([Name("var"), Name("lib")] <= path) && path != [Name("var")]
  }

  ghost predicate Confined(before: Files, after: Files) {
    forall path | Outside(path) :: Look(after, path) == Look(before, path)
  }

  /** Restoring such a directory, or removing it, reaches nothing outside. */
  lemma OutsideKept(files: Files, after: Files, e: Entry, path: Path)
    requires BelowRoot(e) && Outside(path)
    requires after == RemoveTree(files, e.resolved) || exists staging :: OneRestored(files, after, staging, e)
    ensures Look(after, path) == Look(files, path)
  {
    PrefixOfPrefix([Name("var"), Name("lib")], e.resolved, path);
    AncestorsBelowRoot(e.resolved);
  }

  /** One entry of the manifest; only directories strictly below the state root are touched. */
  method RestoreEntry(disk: Disk, staging: Path, e: Entry) returns (ok: bool)
    requires !Overlap(staging, e.resolved)
    modifies disk
    ensures ok ==> OneRestored(old(disk.files), disk.files, staging, e)
    ensures ok <==> Restorable(old(disk.files), e)
    ensures !ok ==> disk.files == old(disk.files) || disk.files == RemoveTree(old(disk.files), e.resolved)
    ensures !BelowRoot(e) ==> !ok && disk.files == old(disk.files)
  {
    RestoresOne(disk.files, staging, e);
    if e.resolved != [] {
      ClearAncestors(disk.files, e.resolved);
    }
    ok := STATE_ROOT <= e.resolved && e.resolved != STATE_ROOT;
    if ok && e.resolved in disk.files {
      ok := disk.Remove(e.resolved);
    }
    if ok {
      ok := disk.MakeParents(e.resolved);
      if ok {
        disk.Copy(staging + e.copy, e.resolved);
      }
    }
  }

  // ---------------------------------------------------------------- the whole restore

  /** The copies of all entries are in the staging directory, apart from the directories themselves. */
  ghost predicate AllStaged(files: Files, staging: Path, entries: seq<Entry>, stopped: Files) {
    forall e | e in entries ::
      && Look(stopped, e.resolved) == Some(Directory) && !Overlap(staging, e.resolved)
      && Staged(files, staging, stopped, e)
  }

  /** Nothing to do with the entries: neither inside a recorded directory nor one of its ancestors. */
  ghost predicate Elsewhere(path: Path, entries: seq<Entry>) {
    forall e | e in entries :: !(e.resolved <= path) && path !in Ancestors(e.resolved)
  }

  ghost predicate ElsewhereSame(before: Files, after: Files, entries: seq<Entry>) {
    forall path | Elsewhere(path, entries) :: Look(after, path) == Look(before, path)
  }

  predicate AllRestorable(files: Files, entries: seq<Entry>) {
    forall e | e in entries :: Restorable(files, e)
  }

  ghost predicate RestoredUpTo(files: Files, entries: seq<Entry>, n: nat, stopped: Files) {
    forall i | 0 <= i < n && i < |entries| :: Restored(files, stopped, entries[i]) && BelowRoot(entries[i])
  }

  /** What holds at every exit. */
  ghost predicate AtExit(start: Files, files: Files, staging: Path, entries: seq<Entry>, stopped: Files) {
    && AllStaged(files, staging, entries, stopped) && ElsewhereSame(start, files, entries)
    && Confined(start, files) && (Rooted(start) ==> Rooted(files))
  }

  /** How far the restore has come; what could be restored at first still can. */
  ghost predicate Underway(start: Files, files: Files, staging: Path, entries: seq<Entry>, n: nat, stopped: Files) {
    && AtExit(start, files, staging, entries, stopped) && RestoredUpTo(files, entries, n, stopped)
    && (AllRestorable(start, entries) ==> AllRestorable(files, entries))
  }

  lemma StagedStep(before: Files, after: Files, staging: Path, entries: seq<Entry>, e: Entry, stopped: Files)
    requires e in entries && AllStaged(before, staging, entries, stopped)
    requires after == RemoveTree(before, e.resolved) || OneRestored(before, after, staging, e)
    ensures AllStaged(after, staging, entries, stopped)
  {
    forall other | other in entries
      ensures Staged(after, staging, stopped, other)
    {
      if after == RemoveTree(before, e.resolved) {
        StagedCleared(before, staging, stopped, e.resolved, other);
      } else {
        StagedAfter(before, after, staging, stopped, e, other);
      }
    }
  }

  lemma ElsewhereStep(start: Files, before: Files, after: Files, staging: Path, entries: seq<Entry>, e: Entry)
    requires e in entries && ElsewhereSame(start, before, entries)
    requires after == RemoveTree(before, e.resolved) || OneRestored(before, after, staging, e)
    ensures ElsewhereSame(start, after, entries)
  {
    forall path | Elsewhere(path, entries)
      ensures Look(after, path) == Look(start, path)
    {
      assert Look(before, path) == Look(start, path);
    }
  }

  lemma ConfinedStep(start: Files, before: Files, after: Files, staging: Path, e: Entry)
    requires BelowRoot(e) && Confined(start, before)
    requires after == RemoveTree(before, e.resolved) || OneRestored(before, after, staging, e)
    ensures Confined(start, after)
  {
    forall path | Outside(path)
      ensures Look(after, path) == Look(start, path)
    {
      OutsideKept(before, after, e, path);
      assert Look(before, path) == Look(start, path);
    }
  }

  /** One step of the restore: restored directories stay restored, and one more is. */
  lemma RestoredStep(before: Files, after: Files, staging: Path, entries: seq<Entry>, n: nat, stopped: Files)
    requires WellFormed(stopped) && n < |entries| && AllStaged(before, staging, entries, stopped)
    requires RestoredUpTo(before, entries, n, stopped) && BelowRoot(entries[n])
    requires OneRestored(before, after, staging, entries[n])
    ensures RestoredUpTo(after, entries, n + 1, stopped)
  {
    var e := entries[n];
    assert e in entries;
    RestoredAfter(before, after, staging, stopped, e);
    forall i | 0 <= i < n
      ensures Restored(after, stopped, entries[i])
    {
      StaysRestored(before, after, staging, stopped, e, entries[i]);
    }
  }

  /** One more restored directory leaves the others restorable. */
  lemma RestorableStep(before: Files, after: Files, staging: Path, entries: seq<Entry>, e: Entry, stopped: Files)
    requires WellFormed(stopped) && e in entries && AllStaged(before, staging, entries, stopped)
    requires AllRestorable(before, entries) && OneRestored(before, after, staging, e)
    ensures AllRestorable(after, entries)
  {
    forall other | other in entries
      ensures Restorable(after, other)
    {
      assert Restorable(before, other);
      StaysClear(before, after, staging, stopped, e, other.resolved);
    }
  }

  lemma RootedStep(before: Files, after: Files, staging: Path, e: Entry, stopped: Files)
    requires Rooted(before) && BelowRoot(e) && !Overlap(staging, e.resolved)
    requires Look(stopped, e.resolved) == Some(Directory) && Staged(before, staging, stopped, e)
    requires after == RemoveTree(before, e.resolved)
        || (Clear(before, e.resolved) && OneRestored(before, after, staging, e))
    ensures Rooted(after)
  {
    if after == RemoveTree(before, e.resolved) {
      RemoveKeepsWellFormed(before, e.resolved);
    } else {
      assert staging + e.copy + [] == staging + e.copy && e.resolved + [] == e.resolved;
      StaysRooted(before, after, staging, e);
    }
  }

  /** An entry was restored, or its directory was removed and the restore stops. */
  lemma ExitStep(start: Files, before: Files, after: Files, staging: Path, entries: seq<Entry>, e: Entry,
        stopped: Files)
    requires AtExit(start, before, staging, entries, stopped) && e in entries && BelowRoot(e)
    requires after == RemoveTree(before, e.resolved)
        || (Clear(before, e.resolved) && OneRestored(before, after, staging, e))
    ensures AtExit(start, after, staging, entries, stopped)
  {
    StagedStep(before, after, staging, entries, e, stopped);
    ElsewhereStep(start, before, after, staging, entries, e);
    ConfinedStep(start, before, after, staging, e);
    if Rooted(start) {
      RootedStep(before, after, staging, e, stopped);
    }
  }

  method RestoreTurn(disk: Disk, staging: Path, entries: seq<Entry>, n: nat, ghost start: Files, ghost stopped: Files)
    returns (ok: bool)
    requires WellFormed(stopped) && n < |entries|
    requires Underway(start, disk.files, staging, entries, n, stopped)
    modifies disk
    ensures ok ==> Underway(start, disk.files, staging, entries, n + 1, stopped)
    ensures AtExit(start, disk.files, staging, entries, stopped)
    ensures AllRestorable(start, entries) ==> ok
  {
    ghost var before := disk.files;
    ghost var e := entries[n];
    ok := RestoreEntry(disk, staging, entries[n]);
    if disk.files != before || ok {
      ExitStep(start, before, disk.files, staging, entries, e, stopped);
    }
    if ok {
      RestoredStep(before, disk.files, staging, entries, n, stopped);
      if AllRestorable(start, entries) {
        RestorableStep(before, disk.files, staging, entries, e, stopped);
      }
    }
  }

  /**
   * Restores the entries in the given order. Whatever happened to the directories since, each recorded path
   * ends with the tree it had while the writers were stopped; a restore that fails stops early, and none fails unless
   * something else than a directory stands in the place of a recorded one or above it. Wherever it ends the copies are
   * intact, and nothing differs but the recorded directories and their missing ancestors, all in the state root.
   */
  method RestoreAll(disk: Disk, staging: Path, entries: seq<Entry>, ghost stopped: Files) returns (ok: bool)
    requires WellFormed(stopped) && AllStaged(disk.files, staging, entries, stopped)
    modifies disk
    ensures ok ==> RestoredUpTo(disk.files, entries, |entries|, stopped)
    ensures AllRestorable(old(disk.files), entries) ==> ok
    ensures AtExit(old(disk.files), disk.files, staging, entries, stopped)
  {
    for n := 0 to |entries|
      invariant Underway(old(disk.files), disk.files, staging, entries, n, stopped)
    {
      ok := RestoreTurn(disk, staging, entries, n, old(disk.files), stopped);
      if !ok {
        return;
      }
    }
    ok := true;
  }
}
