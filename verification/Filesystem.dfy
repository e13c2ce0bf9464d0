/**
 The disk as a graph of directory entries. A directory is known by its identity (device and inode),
 as an open descriptor knows it; an entry is an edge from a directory identity and a name.
 System calls may fail with any error number except "no such entry": a fault never fakes absence.
 */
module Filesystem {
  import opened Domain
  import opened Paths

  datatype Kind = RegularFile | Directory | Symlink | Special
  datatype Entry = Entry(id: Identity, kind: Kind)
  datatype Edge = Edge(dir: Identity, name: Name)
  type Tree = map<Edge, Entry>

  /** What opening an absolute root path yields. */
  type Roots = map<seq<string>, Identity>

  datatype Errno =
    NOENT | ACCESS | PERM | IO | STALE | BUSY | ROFS | NOTDIR | LOOP | XDEV | INVAL | ISDIR | NOTEMPTY | OTHER

  type Fault = e: Errno | e != NOENT witness IO

  datatype Reply<+T> = Ok(value: T) | Err(errno: Errno)

  /** Faults of the successive opens of one walk: key 0 is the root, key i + 1 the i-th component. */
  type OpenFaults = map<nat, Fault>

  datatype MutationFaults = MutationFaults(stat: Option<Fault>, remove: Option<Fault>)

  function FaultAt(faults: OpenFaults, i: nat): Option<Fault> {
    if i in faults then Some(faults[i]) else None
  }

  function StatChild(tree: Tree, dir: Identity, name: Name, fault: Option<Fault>): Reply<Identity> {
    if !ValidComponent(name) then Err(INVAL)
    else if fault.Some? then Err(fault.value)
    else if Edge(dir, name) !in tree then Err(NOENT)
    else Ok(tree[Edge(dir, name)].id)
  }

  /** An entry that a walk may descend into: a directory on the same device, never a symlink. */
  predicate Traversable(dir: Identity, entry: Entry) {
    entry.kind == Directory && entry.id.dev == dir.dev
  }

  function OpenChild(tree: Tree, dir: Identity, name: Name, fault: Option<Fault>): Reply<Identity> {
    if !ValidComponent(name) then Err(INVAL)
    else if fault.Some? then Err(fault.value)
    else if Edge(dir, name) !in tree then Err(NOENT)
    else
      var entry := tree[Edge(dir, name)];
      if entry.kind == Symlink then Err(LOOP)
      else if entry.kind != Directory then Err(NOTDIR)
      else if entry.id.dev != dir.dev then Err(XDEV)
      else Ok(entry.id)
  }

  function OpenRoot(roots: Roots, base: seq<string>, fault: Option<Fault>): Reply<Identity> {
    if fault.Some? then Err(fault.value)
    else if base !in roots then Err(NOENT)
    else Ok(roots[base])
  }

  /** Opens `path` component by component from the directory `dir`. */
  function Walk(tree: Tree, dir: Identity, path: seq<Name>, faults: OpenFaults, at: nat): Reply<Identity>
    decreases |path|
  {
    if path == [] then Ok(dir)
    else match OpenChild(tree, dir, path[0], FaultAt(faults, at))
      case Err(e) => Err(e)
      case Ok(child) => Walk(tree, child, path[1..], faults, at + 1)
  }

  predicate IsEmptyDir(tree: Tree, dir: Identity) {
    forall edge :: edge in tree ==> edge.dir != dir
  }

  /** Removes one non-directory entry after its identity was compared; any failure leaves the disk as it was. */
  function Unlinked(tree: Tree, dir: Identity, name: Name, expected: Identity, faults: MutationFaults): (Tree, bool) {
    var edge := Edge(dir, name);
    if StatChild(tree, dir, name, faults.stat) != Ok(expected) then (tree, false)
    else if faults.remove.Some? || tree[edge].kind == Directory then (tree, false)
    else (tree - {edge}, true)
  }

  /** Removes one empty directory after its identity was compared; any failure leaves the disk as it was. */
  function Rmdired(tree: Tree, dir: Identity, name: Name, expected: Identity, faults: MutationFaults): (Tree, bool) {
    var edge := Edge(dir, name);
    if StatChild(tree, dir, name, faults.stat) != Ok(expected) then (tree, false)
    else if faults.remove.Some? || tree[edge].kind != Directory || !IsEmptyDir(tree, tree[edge].id) then (tree, false)
    else (tree - {edge}, true)
  }

  class Disk {
    var tree: Tree
    const roots: Roots

    constructor (tree: Tree, roots: Roots)
      ensures this.tree == tree && this.roots == roots
    {
      this.tree := tree;
      this.roots := roots;
    }

    method UnlinkChildFile(dir: Identity, name: Name, expected: Identity, faults: MutationFaults) returns (ok: bool)
      modifies this
      ensures (tree, ok) == Unlinked(old(tree), dir, name, expected, faults)
    {
      var current := StatChild(tree, dir, name, faults.stat);
      if current != Ok(expected) || faults.remove.Some? || tree[Edge(dir, name)].kind == Directory {
        return false;
      }
      tree := tree - {Edge(dir, name)};
      return true;
    }

    method RmdirChildDir(dir: Identity, name: Name, expected: Identity, faults: MutationFaults) returns (ok: bool)
      modifies this
      ensures (tree, ok) == Rmdired(old(tree), dir, name, expected, faults)
    {
      var current := StatChild(tree, dir, name, faults.stat);
      if current != Ok(expected) || faults.remove.Some? || tree[Edge(dir, name)].kind != Directory {
        return false;
      }
      if !IsEmptyDir(tree, tree[Edge(dir, name)].id) {
        return false;
      }
      tree := tree - {Edge(dir, name)};
      return true;
    }

    /** Opens the directory at `path` below the root `base`, one component at a time. */
    method OpenPath(base: seq<string>, path: seq<Name>, faults: OpenFaults) returns (r: Reply<Identity>)
      ensures r == ResolveDir(tree, roots, base, path, faults)
    {
      r := OpenRoot(roots, base, FaultAt(faults, 0));
      if r.Err? {
        return;
      }
      var i := 0;
      while i < |path|
        invariant 0 <= i <= |path|
        invariant r.Ok?
        invariant Walk(tree, r.value, path[i..], faults, i + 1) == ResolveDir(tree, roots, base, path, faults)
      {
        assert path[i..][1..] == path[i + 1..];
        r := OpenChild(tree, r.value, path[i], FaultAt(faults, i + 1));
        if r.Err? {
          return;
        }
        i := i + 1;
      }
    }
  }

  /** The directory that the path below a root path denotes. */
  function ResolveDir(
    tree: Tree, roots: Roots, base: seq<string>, path: seq<Name>, faults: OpenFaults): Reply<Identity> {
    match OpenRoot(roots, base, FaultAt(faults, 0))
    case Err(e) => Err(e)
    case Ok(root) => Walk(tree, root, path, faults, 1)
  }

  // ------------------------------------------------------------------ Shrinking trees

  /** `small` is `big` with some entries removed and nothing else changed. */
  ghost predicate Below(small: Tree, big: Tree) {
    forall edge :: edge in small ==> edge in big && small[edge] == big[edge]
  }

  lemma {:induction false} WalkWithoutFaults(
    tree: Tree, dir: Identity, path: seq<Name>, faults: OpenFaults, at: nat, at': nat)
    requires Walk(tree, dir, path, faults, at).Ok?
    ensures Walk(tree, dir, path, map[], at') == Walk(tree, dir, path, faults, at)
    decreases |path|
  {
    if path != [] {
      var child := OpenChild(tree, dir, path[0], FaultAt(faults, at)).value;
      WalkWithoutFaults(tree, child, path[1..], faults, at + 1, at' + 1);
    }
  }

  lemma {:induction false} WalkIsMonotone(small: Tree, big: Tree, dir: Identity, path: seq<Name>, at: nat)
    requires Below(small, big)
    requires Walk(small, dir, path, map[], at).Ok?
    ensures Walk(big, dir, path, map[], at) == Walk(small, dir, path, map[], at)
    decreases |path|
  {
    if path != [] {
      var child := OpenChild(small, dir, path[0], None).value;
      WalkIsMonotone(small, big, child, path[1..], at + 1);
    }
  }

  /** Removing something that is not a directory leaves every successful walk as it was. */
  lemma {:induction false} WalkSurvivesUnlink(tree: Tree, edge: Edge, dir: Identity, path: seq<Name>, at: nat)
    requires edge in tree && tree[edge].kind != Directory
    requires Walk(tree, dir, path, map[], at).Ok?
    ensures Walk(tree - {edge}, dir, path, map[], at) == Walk(tree, dir, path, map[], at)
    decreases |path|
  {
    if path != [] {
      var child := OpenChild(tree, dir, path[0], None).value;
      WalkSurvivesUnlink(tree, edge, child, path[1..], at + 1);
    }
  }

  // ------------------------------------------------------------------ Absence of a path

  /** Nothing can be reached at `path` because one of its names has no entry where the walk stands. */
  predicate Absent(tree: Tree, dir: Identity, path: seq<Name>)
    requires path != []
    decreases |path|
  {
    && ValidComponent(path[0])
    && var edge := Edge(dir, path[0]);
      if edge !in tree then true
      else |path| > 1 && Traversable(dir, tree[edge]) && Absent(tree, tree[edge].id, path[1..])
  }

  lemma {:induction false} AbsenceIsMonotone(small: Tree, big: Tree, dir: Identity, path: seq<Name>)
    requires path != [] && Below(small, big)
    requires Absent(big, dir, path)
    ensures Absent(small, dir, path)
    decreases |path|
  {
    var edge := Edge(dir, path[0]);
    if edge in small {
      AbsenceIsMonotone(small, big, big[edge].id, path[1..]);
    }
  }

  /** With the parent directory resolved, absence of the path is absence of the one entry. */
  lemma {:induction false} AbsentAtParent(tree: Tree, dir: Identity, path: seq<Name>, at: nat)
    requires path != []
    requires Walk(tree, dir, path[..|path| - 1], map[], at).Ok?
    requires ValidComponent(path[|path| - 1])
    ensures
      var parent := Walk(tree, dir, path[..|path| - 1], map[], at).value;
      Absent(tree, dir, path) <==> Edge(parent, path[|path| - 1]) !in tree
    decreases |path|
  {
    if |path| > 1 {
      var front := path[..|path| - 1];
      var child := OpenChild(tree, dir, front[0], None).value;
      assert path[1..][..|path[1..]| - 1] == front[1..];
      AbsentAtParent(tree, child, path[1..], at + 1);
    }
  }
}
