/** The postcondition verifier: what the disk says about an operation, after it ran or after a crash. */
module Verification {
  import opened Domain
  import opened Paths
  import opened Filesystem

  datatype Verdict =
    ConfirmedDeleted | AlreadyGone | StillPresent | IdentityMismatch | ParentUnavailable | TargetUnavailable | Unknown

  datatype VerifyFaults = VerifyFaults(opens: OpenFaults, stat: Option<Fault>)

  predicate IsDeletion(v: Verdict) {
    v == ConfirmedDeleted || v == AlreadyGone
  }

  function VerifyAtParent(tree: Tree, parent: Identity, leaf: Name, expected: Identity, fault: Option<Fault>): Verdict {
    match StatChild(tree, parent, leaf, fault)
    case Ok(id) => if id == expected then StillPresent else IdentityMismatch
    case Err(NOENT) => ConfirmedDeleted
    case Err(ROFS) => TargetUnavailable
    case Err(BUSY) => TargetUnavailable
    case Err(NOTDIR) => ParentUnavailable
    case Err(STALE) => ParentUnavailable
    case Err(_) => Unknown
  }

  function OpenVerdict(e: Errno): Verdict {
    match e
    case NOENT => AlreadyGone
    case IO => Unknown
    case STALE => Unknown
    case BUSY => TargetUnavailable
    case ROFS => TargetUnavailable
    case _ => ParentUnavailable
  }

  function VerifyFrom(
    tree: Tree, dir: Identity, path: seq<Name>, expected: Identity, faults: VerifyFaults, at: nat): Verdict
    requires path != []
    decreases |path|
  {
    if |path| == 1 then VerifyAtParent(tree, dir, path[0], expected, faults.stat)
    else match OpenChild(tree, dir, path[0], FaultAt(faults.opens, at))
      case Err(e) => OpenVerdict(e)
      case Ok(child) => VerifyFrom(tree, child, path[1..], expected, faults, at + 1)
  }

  function VerifyPath(
    tree: Tree, roots: Roots, base: seq<string>, path: seq<Name>, expected: Identity, faults: VerifyFaults): Verdict
  {
    match OpenRoot(roots, base, FaultAt(faults.opens, 0))
    case Err(_) => TargetUnavailable
    case Ok(root) => if path == [] then Unknown else VerifyFrom(tree, root, path, expected, faults, 1)
  }

  /** Walks to the parent of the path from the target root and looks at the last name there. */
  method VerifyOperation(
    disk: Disk, base: seq<string>, path: seq<Name>, expected: Identity, faults: VerifyFaults) returns (v: Verdict)
    ensures v == VerifyPath(disk.tree, disk.roots, base, path, expected, faults)
    ensures faults == NO_FAULTS ==> FitsDisk(v, disk.tree, disk.roots, base, path, expected)
  {
    VerdictsExactly(disk.tree, disk.roots, base, path, expected);
    var current := OpenRoot(disk.roots, base, FaultAt(faults.opens, 0));
    if current.Err? {
      return TargetUnavailable;
    }
    if path == [] {
      return Unknown;
    }
    var i := 0;
    while i < |path| - 1
      invariant 0 <= i <= |path| - 1
      invariant current.Ok?
      invariant VerifyFrom(disk.tree, current.value, path[i..], expected, faults, i + 1)
             == VerifyPath(disk.tree, disk.roots, base, path, expected, faults)
    {
      assert path[i..][1..] == path[i + 1..];
      current := OpenChild(disk.tree, current.value, path[i], FaultAt(faults.opens, i + 1));
      if current.Err? {
        return OpenVerdict(current.errno);
      }
      i := i + 1;
    }
    v := VerifyAtParent(disk.tree, current.value, path[i], expected, faults.stat);
  }

  lemma {:induction false} DeletionMeansAbsent(
    tree: Tree, dir: Identity, path: seq<Name>, expected: Identity, faults: VerifyFaults, at: nat)
    requires path != []
    requires IsDeletion(VerifyFrom(tree, dir, path, expected, faults, at))
    ensures Absent(tree, dir, path)
    decreases |path|
  {
    if |path| > 1 {
      var reply := OpenChild(tree, dir, path[0], FaultAt(faults.opens, at));
      if reply.Ok? {
        DeletionMeansAbsent(tree, reply.value, path[1..], expected, faults, at + 1);
      }
    }
  }

  lemma {:induction false} AbsentMeansDeletion(tree: Tree, dir: Identity, path: seq<Name>, expected: Identity, at: nat)
    requires path != []
    requires Absent(tree, dir, path)
    ensures IsDeletion(VerifyFrom(tree, dir, path, expected, VerifyFaults(map[], None), at))
    decreases |path|
  {
    if Edge(dir, path[0]) in tree {
      AbsentMeansDeletion(tree, tree[Edge(dir, path[0])].id, path[1..], expected, at + 1);
    }
  }

  /** A target whose root opens and in which nothing is reachable at the path. */
  predicate PathGone(tree: Tree, roots: Roots, base: seq<string>, path: seq<Name>) {
    base in roots && path != [] && Absent(tree, roots[base], path)
  }

  /** The verifier reports a deletion only for an absent path, and always does so when no fault interferes. */
  lemma VerifierIsSoundAndComplete(
    tree: Tree, roots: Roots, base: seq<string>, path: seq<Name>, expected: Identity, faults: VerifyFaults)
    ensures IsDeletion(VerifyPath(tree, roots, base, path, expected, faults)) ==> PathGone(tree, roots, base, path)
    ensures PathGone(tree, roots, base, path)
      ==> IsDeletion(VerifyPath(tree, roots, base, path, expected, VerifyFaults(map[], None)))
  {
    if IsDeletion(VerifyPath(tree, roots, base, path, expected, faults)) {
      DeletionMeansAbsent(tree, roots[base], path, expected, faults, 1);
    }
    if PathGone(tree, roots, base, path) {
      AbsentMeansDeletion(tree, roots[base], path, expected, 1);
    }
  }

  // ------------------------------------------------------------------ Every verdict, by walk and entry

  const NO_FAULTS := VerifyFaults(map[], None)

  /** The walk to the parent directory of the path, as the faults let it go. */
  ghost function ParentWalk(tree: Tree, root: Identity, path: seq<Name>, faults: OpenFaults): Reply<Identity>
    requires path != []
  {
    Walk(tree, root, path[..|path| - 1], faults, 1)
  }

  /** The walk to the parent succeeds and the last name has an entry there. */
  ghost predicate PathPresent(tree: Tree, roots: Roots, base: seq<string>, path: seq<Name>) {
    && base in roots && path != [] && ValidComponent(path[|path| - 1])
    && ParentWalk(tree, roots[base], path, map[]).Ok?
    && Edge(ParentWalk(tree, roots[base], path, map[]).value, path[|path| - 1]) in tree
  }

  ghost function EntryAt(tree: Tree, roots: Roots, base: seq<string>, path: seq<Name>): Entry
    requires PathPresent(tree, roots, base, path)
  {
    tree[Edge(ParentWalk(tree, roots[base], path, map[]).value, path[|path| - 1])]
  }

  /** The walk stands before its `k`-th name and cannot go on: no name, or a symlink, a file or another device. */
  ghost predicate StopsAt(tree: Tree, dir: Identity, path: seq<Name>, k: nat, at: nat) {
    && k < |path| && Walk(tree, dir, path[..k], map[], at).Ok?
    && var here := Walk(tree, dir, path[..k], map[], at).value;
      || !ValidComponent(path[k])
      || (Edge(here, path[k]) in tree && !Traversable(here, tree[Edge(here, path[k])]))
  }

  /** And the same with nothing there at all under a proper name. */
  ghost predicate MissesAt(tree: Tree, dir: Identity, path: seq<Name>, k: nat, at: nat) {
    && k < |path| && Walk(tree, dir, path[..k], map[], at).Ok? && ValidComponent(path[k])
    && Edge(Walk(tree, dir, path[..k], map[], at).value, path[k]) !in tree
  }

  ghost predicate Stops(tree: Tree, dir: Identity, path: seq<Name>, at: nat) {
    exists k: nat :: StopsAt(tree, dir, path, k, at)
  }

  ghost predicate Misses(tree: Tree, dir: Identity, path: seq<Name>, at: nat) {
    exists k: nat :: MissesAt(tree, dir, path, k, at)
  }

  lemma StepOfWalk(tree: Tree, dir: Identity, path: seq<Name>, k: nat, at: nat)
    requires 0 < k <= |path| && OpenChild(tree, dir, path[0], None).Ok?
    ensures Walk(tree, dir, path[..k], map[], at)
      == Walk(tree, OpenChild(tree, dir, path[0], None).value, path[1..][..k - 1], map[], at + 1)
  {
    assert path[..k][1..] == path[1..][..k - 1];
  }

  /** Why a walk without faults fails: something in the way, or something missing. */
  lemma {:induction false} WalkFailsExactly(tree: Tree, dir: Identity, path: seq<Name>, at: nat)
    ensures Walk(tree, dir, path, map[], at) == Err(NOENT) <==> Misses(tree, dir, path, at)
    ensures (Walk(tree, dir, path, map[], at).Err? && Walk(tree, dir, path, map[], at).errno != NOENT)
      <==> Stops(tree, dir, path, at)
    ensures Walk(tree, dir, path, map[], at).Err? ==>
      Walk(tree, dir, path, map[], at).errno in {NOENT, INVAL, LOOP, NOTDIR, XDEV}
    decreases |path|
  {
    if path != [] {
      assert path[..0] == [];
      var reply := OpenChild(tree, dir, path[0], None);
      if reply.Ok? {
        var rest, next := path[1..], at + 1;
        WalkFailsExactly(tree, reply.value, rest, next);
        if k: nat :| MissesAt(tree, reply.value, rest, k, next) {
          StepOfWalk(tree, dir, path, k + 1, at);
          assert MissesAt(tree, dir, path, k + 1, at);
        }
        if k: nat :| StopsAt(tree, reply.value, rest, k, next) {
          StepOfWalk(tree, dir, path, k + 1, at);
          assert StopsAt(tree, dir, path, k + 1, at);
        }
        if k: nat :| MissesAt(tree, dir, path, k, at) {
          StepOfWalk(tree, dir, path, k, at);
          assert MissesAt(tree, reply.value, rest, k - 1, next);
        }
        if k: nat :| StopsAt(tree, dir, path, k, at) {
          StepOfWalk(tree, dir, path, k, at);
          assert StopsAt(tree, reply.value, rest, k - 1, next);
        }
      } else {
        FirstStep(tree, dir, path, at);
      }
    }
  }

  lemma FirstStep(tree: Tree, dir: Identity, path: seq<Name>, at: nat)
    requires path != [] && OpenChild(tree, dir, path[0], None).Err?
    ensures OpenChild(tree, dir, path[0], None).errno == NOENT <==> Misses(tree, dir, path, at)
    ensures OpenChild(tree, dir, path[0], None).errno != NOENT <==> Stops(tree, dir, path, at)
  {
    assert path[..0] == [];
    assert MissesAt(tree, dir, path, 0, at) || StopsAt(tree, dir, path, 0, at);
    forall k: nat | 0 < k <= |path| ensures Walk(tree, dir, path[..k], map[], at).Err? {
      assert path[..k][0] == path[0];
    }
  }

  /** The verifier is a walk to the parent and a look at the last name. */
  lemma {:induction false} VerifyByWalk(
    tree: Tree, dir: Identity, path: seq<Name>, expected: Identity, faults: VerifyFaults, at: nat)
    requires path != []
    ensures
      var parent, leaf := Walk(tree, dir, path[..|path| - 1], faults.opens, at), path[|path| - 1];
      VerifyFrom(tree, dir, path, expected, faults, at)
        == if parent.Ok? then VerifyAtParent(tree, parent.value, leaf, expected, faults.stat)
          else OpenVerdict(parent.errno)
    decreases |path|
  {
    hide OpenVerdict, VerifyAtParent;
    if |path| > 1 {
      var reply := OpenChild(tree, dir, path[0], FaultAt(faults.opens, at));
      if reply.Ok? {
        VerifyByWalk(tree, reply.value, path[1..], expected, faults, at + 1);
        assert path[1..][..|path| - 2] == path[..|path| - 1][1..];
      }
    }
  }

  /** The verdict on one name below an open directory, whatever fault the look meets. */
  ghost predicate FitsAtParent(
    v: Verdict, tree: Tree, dir: Identity, leaf: Name, expected: Identity, fault: Option<Fault>)
  {
    var edge, seen := Edge(dir, leaf), ValidComponent(leaf) && fault.None?;
    && (v == ConfirmedDeleted <==> seen && edge !in tree)
    && (v == StillPresent <==> seen && edge in tree && tree[edge].id == expected)
    && (v == IdentityMismatch <==> seen && edge in tree && tree[edge].id != expected)
    && (v == TargetUnavailable <==> ValidComponent(leaf) && fault.Some? && fault.value in {ROFS, BUSY})
    && (v == ParentUnavailable <==> ValidComponent(leaf) && fault.Some? && fault.value in {NOTDIR, STALE})
    && v != AlreadyGone
  }

  lemma HandleVerdictsExactly(tree: Tree, dir: Identity, leaf: Name, expected: Identity, fault: Option<Fault>)
    ensures FitsAtParent(VerifyAtParent(tree, dir, leaf, expected, fault), tree, dir, leaf, expected, fault)
  {
  }

  /** Any faults: which error numbers, met where, give which verdict. */
  lemma VerdictsUnderFaults(
    tree: Tree, roots: Roots, base: seq<string>, path: seq<Name>, expected: Identity, faults: VerifyFaults)
    ensures
      var v := VerifyPath(tree, roots, base, path, expected, faults);
      if 0 in faults.opens || base !in roots then v == TargetUnavailable
      else if path == [] then v == Unknown
      else
        var parent := ParentWalk(tree, roots[base], path, faults.opens);
        if parent.Ok? then FitsAtParent(v, tree, parent.value, path[|path| - 1], expected, faults.stat)
        else
          && (v == AlreadyGone <==> parent.errno == NOENT)
          && (v == Unknown <==> parent.errno in {IO, STALE})
          && (v == TargetUnavailable <==> parent.errno in {BUSY, ROFS})
          && v in {AlreadyGone, Unknown, TargetUnavailable, ParentUnavailable}
  {
    hide VerifyFrom, Walk, VerifyAtParent, FitsAtParent;
    if 0 !in faults.opens && base in roots && path != [] {
      VerifyByWalk(tree, roots[base], path, expected, faults, 1);
      var parent := ParentWalk(tree, roots[base], path, faults.opens);
      if parent.Ok? {
        HandleVerdictsExactly(tree, parent.value, path[|path| - 1], expected, faults.stat);
      }
    }
  }

  /** What each verdict says about the disk when nothing interferes. */
  ghost predicate FitsDisk(
    v: Verdict, tree: Tree, roots: Roots, base: seq<string>, path: seq<Name>, expected: Identity)
  {
    && (v == StillPresent <==>
      PathPresent(tree, roots, base, path) && EntryAt(tree, roots, base, path).id == expected)
    && (v == IdentityMismatch <==>
      PathPresent(tree, roots, base, path) && EntryAt(tree, roots, base, path).id != expected)
    && (IsDeletion(v) <==> PathGone(tree, roots, base, path))
    && (v == AlreadyGone <==>
      base in roots && path != [] && Misses(tree, roots[base], path[..|path| - 1], 1))
    && (v == TargetUnavailable <==> base !in roots)
    && (v == ParentUnavailable <==>
      base in roots && path != [] && Stops(tree, roots[base], path[..|path| - 1], 1))
    && (v == Unknown <==>
      && base in roots
      && (path == []
        || (ParentWalk(tree, roots[base], path, map[]).Ok? && !ValidComponent(path[|path| - 1]))))
  }

  /** Without faults every verdict is given exactly for its own situation on the disk. */
  lemma VerdictsExactly(tree: Tree, roots: Roots, base: seq<string>, path: seq<Name>, expected: Identity)
    ensures FitsDisk(VerifyPath(tree, roots, base, path, expected, NO_FAULTS), tree, roots, base, path, expected)
  {
    hide VerifyPath, Walk, Misses, Stops, PathGone;
    VerdictsUnderFaults(tree, roots, base, path, expected, NO_FAULTS);
    VerifierIsSoundAndComplete(tree, roots, base, path, expected, NO_FAULTS);
    if base in roots && path != [] {
      WalkFailsExactly(tree, roots[base], path[..|path| - 1], 1);
    }
  }
}
