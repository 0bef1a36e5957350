/** File systems as maps from paths to nodes, with the tree operations that copies and restores are made of. */
module FileTrees {

  /** A path component: a name, or the number of a copied directory. */
  datatype Part = Name(s: string) | Index(i: nat)

  type Path = seq<Part>

  /** One manifest entry: the directory that was copied, and its copy relative to the staging directory. */
  datatype Entry = Entry(resolved: Path, copy: Path)

  datatype Node = Directory | File(data: string) | Marker | Manifest(entries: seq<Entry>)

  type Files = map<Path, Node>

  datatype Option<+T> = None | Some(value: T)

  function Look(files: Files, path: Path): Option<Node> {
    if path in files then Some(files[path]) else None
  }

  predicate Overlap(p: Path, q: Path) {
    p <= q || q <= p
  }

  /** The part of a path below one of its ancestors. */
  function Below(ancestor: Path, path: Path): (rest: Path)
    requires ancestor <= path
    ensures ancestor + rest == path
  {
    path[|ancestor|..]
  }

  function RemoveTree(files: Files, root: Path): Files {
    map path | path in files && !(root <= path) :: files[path]
  }

  /** The files with the tree at the source in place of whatever was at the destination. */
  function CopyTree(files: Files, source: Path, destination: Path): Files {
    var copied := set path | path in files && source <= path :: destination + Below(source, path);
    map path | path in files.Keys + copied && (destination <= path ==> source + Below(destination, path) in files) ::
      if destination <= path then files[source + Below(destination, path)] else files[path]
  }

  /** Both trees hold the same nodes at the same places. */
  ghost predicate SameTree(a: Files, p: Path, b: Files, q: Path) {
    forall r: Path :: Look(a, p + r) == Look(b, q + r)
  }

  lemma CopyTreeAt(files: Files, source: Path, destination: Path, path: Path)
    ensures Look(CopyTree(files, source, destination), path) ==
      if destination <= path then Look(files, source + Below(destination, path)) else Look(files, path)
  {
    if destination <= path && source + Below(destination, path) in files {
      var from := source + Below(destination, path);
      assert Below(source, from) == Below(destination, path);
      assert path == destination + Below(source, from);
    }
  }

  /** Two ancestors of one path overlap. */
  lemma CommonDescendant(p: Path, q: Path, path: Path)
    requires p <= path && q <= path
    ensures Overlap(p, q)
  {
    assert p == path[..|p|] && q == path[..|q|];
    assert if |p| <= |q| then p == q[..|p|] else q == p[..|q|];
  }
}
