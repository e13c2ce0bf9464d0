/**
 What every step of every run keeps, for any plan, any disk, any tables and any faults: nothing
 leaves the disk unless a granted operation names exactly that entry and its intent is already
 durable, and no directory is removed above a surviving entry.
 */
module CrashSafety {
  import opened Domain
  import opened Paths
  import opened Filesystem
  import opened Verification
  import opened Durability
  import opened Authorization
  import opened Execution

  // ------------------------------------------------------------------ Vocabulary

  /** The directory that a path below a catalogued target's root denotes. */
  ghost function DirAt(job: Job, tree: Tree, target: TargetId, path: seq<Name>): Reply<Identity> {
    if target in job.catalog.targets && job.catalog.targets[target].base in job.roots then
      Walk(tree, job.roots[job.catalog.targets[target].base], path, map[], 1)
    else Err(NOENT)
  }

  /** Walking the operation's path in `tree` leads to directory `dir` and last name `leaf`. */
  ghost predicate AtPath(job: Job, tree: Tree, d: Deletion, dir: Identity, leaf: Name) {
    var path := Components(d.relPath);
    && HasLeaf(path)
    && DirAt(job, tree, d.target, path[..|path| - 1]) == Ok(dir)
    && leaf == path[|path| - 1]
  }

  /** Nothing is reachable at the operation's path. */
  ghost predicate Gone(job: Job, tree: Tree, d: Deletion) {
    && d.target in job.catalog.targets
    && PathGone(tree, job.roots, job.catalog.targets[d.target].base, Components(d.relPath))
  }

  ghost predicate IsDeletionOp(job: Job, k: nat) {
    k < |job.plan.operations| && DeletionOf(job.plan.operations[k].op).Some?
  }

  ghost function Del(job: Job, k: nat): Deletion
    requires IsDeletionOp(job, k)
  {
    DeletionOf(job.plan.operations[k].op).value
  }

  /** The grant and the safety gate let the operation through. */
  ghost predicate Permitted(job: Job, k: nat) {
    && IsDeletionOp(job, k)
    && Granted(job.grant, job.plan.operations[k].op)
    && Del(job, k).target in job.catalog.targets
    && AtBoundary(job.catalog.targets[Del(job, k).target], Del(job, k).relPath, Del(job, k).expected,
      job.catalog.generation)
  }

  ghost predicate IsRowOf(job: Job, row: Intent, k: nat)
    requires IsDeletionOp(job, k)
  {
    row == IntentFor(job, job.plan.operations[k], Del(job, k)).(state := row.state)
  }

  /** A durable intent for operation `k` that is at least marked as mutating. */
  ghost predicate Journaled(job: Job, rows: seq<Intent>, k: nat)
    requires IsDeletionOp(job, k)
  {
    exists r :: 0 <= r < |rows| && IsRowOf(job, rows[r], k) && rows[r].state != Committed
  }

  ghost predicate Removed(tree0: Tree, tree: Tree, edge: Edge) {
    edge in tree0 && edge !in tree
  }

  /** Operation `k` names the entry: by path, by identity and by kind. */
  ghost predicate Names(job: Job, tree0: Tree, k: nat, edge: Edge) {
    && IsDeletionOp(job, k)
    && edge in tree0
    && AtPath(job, tree0, Del(job, k), edge.dir, edge.name)
    && tree0[edge].id == Del(job, k).expected
    && (tree0[edge].kind == Directory <==> Del(job, k).isDir)
  }

  ghost predicate Explained(job: Job, tree0: Tree, rows: seq<Intent>, k: nat, edge: Edge) {
    Names(job, tree0, k, edge) && Permitted(job, k) && Journaled(job, rows, k)
  }

  /** No directory was removed while something was still in it. */
  ghost predicate NoOrphans(tree0: Tree, tree: Tree) {
    forall edge :: Removed(tree0, tree, edge) && tree0[edge].kind == Directory ==> IsEmptyDir(tree, tree0[edge].id)
  }

  /** The remembered handle is where a fresh walk would lead. */
  ghost predicate CacheValid(job: Job, tree: Tree, c: Cache) {
    DirAt(job, tree, c.target, c.parent) == Ok(c.dir)
  }

  // ------------------------------------------------------------------ The disk

  ghost predicate HandleInv(job: Job, tree0: Tree, s: State) {
    match s.phase
    case ParentOpen(dir, leaf) =>
      IsDeletionOp(job, s.i) && AtPath(job, s.tree, Del(job, s.i), dir, leaf)
    case Mutated(dir, leaf, ok) =>
      && IsDeletionOp(job, s.i)
      && AtPath(job, tree0, Del(job, s.i), dir, leaf)
      && (ok ==> Edge(dir, leaf) !in s.tree && ValidComponent(leaf))
      && (Edge(dir, leaf) !in s.tree && ValidComponent(leaf) ==> Gone(job, s.tree, Del(job, s.i)))
    case _ => true
  }

  /** A directory was just removed, so the handle is about to be dropped (or the run has stopped). */
  ghost predicate HandleDoomed(job: Job, s: State) {
    s.phase.Aborted? || (s.phase.Mutated? && IsDeletionOp(job, s.i) && Del(job, s.i).isDir)
  }

  ghost predicate CacheInv(job: Job, s: State) {
    s.cache.Some? && !HandleDoomed(job, s) ==> CacheValid(job, s.tree, s.cache.value)
  }

  ghost predicate DiskInv(job: Job, tree0: Tree, s: State) {
    && Below(s.tree, tree0)
    && NoOrphans(tree0, s.tree)
    && CacheInv(job, s)
    && HandleInv(job, tree0, s)
  }

  /** Removing the entry that a walk leads to makes its path absent. */
  lemma {:induction false} RemovalMakesAbsent(tree: Tree, dir: Identity, path: seq<Name>, edge: Edge, at: nat)
    requires path != [] && ValidComponent(path[|path| - 1])
    requires Walk(tree, dir, path[..|path| - 1], map[], at) == Ok(edge.dir)
    requires edge.name == path[|path| - 1]
    ensures Absent(tree - {edge}, dir, path)
    decreases |path|
  {
    if |path| > 1 {
      var front := path[..|path| - 1];
      var child := OpenChild(tree, dir, front[0], None).value;
      assert path[1..][..|path[1..]| - 1] == front[1..];
      RemovalMakesAbsent(tree, child, path[1..], edge, at + 1);
    }
  }

  lemma ResolvedDirIsWalk(tree: Tree, roots: Roots, base: seq<string>, path: seq<Name>, faults: OpenFaults)
    requires ResolveDir(tree, roots, base, path, faults).Ok?
    ensures base in roots
    ensures Walk(tree, roots[base], path, map[], 1) == ResolveDir(tree, roots, base, path, faults)
  {
    WalkWithoutFaults(tree, roots[base], path, faults, 1, 1);
  }

  /** What one mutation does to the disk: nothing, or the removal of exactly the named entry. */
  lemma MutationEffect(tree: Tree, d: Deletion, dir: Identity, leaf: Name, faults: MutationFaults)
    ensures
      var (tree', ok) := Mutate(tree, d, dir, leaf, faults);
      var edge := Edge(dir, leaf);
      if ok then
        && edge in tree && tree' == tree - {edge} && ValidComponent(leaf)
        && tree[edge].id == d.expected
        && (tree[edge].kind == Directory <==> d.isDir)
        && (d.isDir ==> IsEmptyDir(tree, tree[edge].id))
      else tree' == tree
  {
  }

  lemma MutateKeepsDiskInv(job: Job, env: seq<OpEnv>, tree0: Tree, s: State, cached: bool)
    requires WellFormed(job, env, s) && s.phase.ParentOpen?
    requires DiskInv(job, tree0, s)
    ensures DiskInv(job, tree0, Step(job, env, s, cached))
  {
    hide Walk, Components, Mutate;
    var s' := Step(job, env, s, cached);
    var d := Del(job, s.i);
    var ParentOpen(dir, leaf) := s.phase;
    var path := Components(d.relPath);
    var root := job.roots[job.catalog.targets[d.target].base];
    var edge := Edge(dir, leaf);
    MutationEffect(s.tree, d, dir, leaf, env[s.i].mutation);
    WalkIsMonotone(s.tree, tree0, root, path[..|path| - 1], 1);
    if s'.phase.ok {
      RemovalMakesAbsent(s.tree, root, path, edge, 1);
      if !d.isDir && s.cache.Some? {
        var c := s.cache.value;
        WalkSurvivesUnlink(s.tree, edge, job.roots[job.catalog.targets[c.target].base], c.parent, 1);
      }
    } else if ValidComponent(leaf) {
      AbsentAtParent(s.tree, root, path, 1);
    }
  }

  lemma OpenKeepsDiskInv(job: Job, env: seq<OpEnv>, tree0: Tree, s: State, cached: bool)
    requires WellFormed(job, env, s) && CatalogOk(job.catalog) && s.phase.MarkedMutating?
    requires DiskInv(job, tree0, s)
    ensures DiskInv(job, tree0, Step(job, env, s, cached))
  {
    var s' := Step(job, env, s, cached);
    var d := Del(job, s.i);
    var path := Components(d.relPath);
    var target := job.catalog.targets[d.target];
    if s'.phase.ParentOpen? {
      var parent := path[..|path| - 1];
      if !(cached && CacheHit(s.cache, target.id, parent)) {
        ResolvedDirIsWalk(s.tree, job.roots, target.base, parent, env[s.i].opens);
      }
      assert DirAt(job, s.tree, d.target, parent) == Ok(s'.phase.dir);
    }
  }

  lemma StepKeepsDiskInv(job: Job, env: seq<OpEnv>, tree0: Tree, s: State, cached: bool)
    requires WellFormed(job, env, s) && CatalogOk(job.catalog)
    requires DiskInv(job, tree0, s)
    ensures DiskInv(job, tree0, Step(job, env, s, cached))
  {
    hide Mutate, Judge, VerifyAtParent, CommitIntent, SetIntentState, RecordResult, ParentDir, Decide;
    if s.phase.ParentOpen? {
      MutateKeepsDiskInv(job, env, tree0, s, cached);
    } else if s.phase.MarkedMutating? {
      OpenKeepsDiskInv(job, env, tree0, s, cached);
    }
  }

  lemma {:induction false} DiskInvAlways(job: Job, env: seq<OpEnv>, tree0: Tree, db0: Tables, cached: bool, n: nat)
    requires |env| == |job.plan.operations| && CatalogOk(job.catalog)
    ensures DiskInv(job, tree0, Run(job, env, Init(tree0, db0), cached, n))
    decreases n
  {
    hide Step;
    if n > 0 {
      DiskInvAlways(job, env, tree0, db0, cached, n - 1);
      StepKeepsDiskInv(job, env, tree0, Run(job, env, Init(tree0, db0), cached, n - 1), cached);
    }
  }

  // ------------------------------------------------------------------ The journal

  ghost predicate RowInv(job: Job, s: State) {
    match s.phase
    case IntentStored =>
      && Permitted(job, s.i)
      && exists r :: 0 <= r < |s.db.intents| && IsRowOf(job, s.db.intents[r], s.i)
    case MarkedMutating => Permitted(job, s.i) && Journaled(job, s.db.intents, s.i)
    case ParentOpen(_, _) => Permitted(job, s.i) && Journaled(job, s.db.intents, s.i)
    case Mutated(_, _, _) => Permitted(job, s.i) && Journaled(job, s.db.intents, s.i)
    case _ => true
  }

  ghost predicate JournalInv(job: Job, tree0: Tree, s: State) {
    && RowInv(job, s)
    && forall edge :: Removed(tree0, s.tree, edge) ==> exists k :: Explained(job, tree0, s.db.intents, k, edge)
  }

  lemma SetStateRowsEvolve(t: Tables, attempt: nat, op: nat, state: IntentState)
    requires state != Committed
    ensures RowsEvolve(t.intents, SetIntentState(t, attempt, op, state).intents)
  {
    var after := SetIntentState(t, attempt, op, state).intents;
    forall i | 0 <= i < |t.intents| ensures RowEvolves(t.intents[i], after[i]) {
    }
  }

  lemma StepRowsEvolve(job: Job, env: seq<OpEnv>, s: State, cached: bool)
    requires WellFormed(job, env, s)
    ensures RowsEvolve(s.db.intents, Step(job, env, s, cached).db.intents)
  {
    hide Step, SetIntentState;
    StepWrites(job, env, s, cached);
    StepMoves(job, env, s, cached);
    if InFlight(s.phase) {
      var op := job.plan.operations[s.i].id;
      SetStateRowsEvolve(s.db, job.attempt, op, Mutating);
      SetStateRowsEvolve(s.db, job.attempt, op, VerifiedSuccess);
      SetStateRowsEvolve(s.db, job.attempt, op, VerifiedFailed);
      SetStateRowsEvolve(s.db, job.attempt, op, ResolvedUnknown);
    }
  }

  lemma JournaledPersists(job: Job, before: seq<Intent>, after: seq<Intent>, k: nat)
    requires IsDeletionOp(job, k) && RowsEvolve(before, after) && Journaled(job, before, k)
    ensures Journaled(job, after, k)
  {
    var r :| 0 <= r < |before| && IsRowOf(job, before[r], k) && before[r].state != Committed;
    assert RowEvolves(before[r], after[r]);
    assert IsRowOf(job, after[r], k);
  }

  /** An operation whose intent gets stored passed every gate. */
  lemma StoredMeansPermitted(job: Job, env: seq<OpEnv>, s: State, cached: bool)
    requires WellFormed(job, env, s) && s.phase.AtOp?
    requires Step(job, env, s, cached).phase.IntentStored?
    ensures Permitted(job, s.i)
  {
    hide CommitIntent, AtBoundary, Granted, IntentFor, Tally;
  }

  lemma StepKeepsRowInv(job: Job, env: seq<OpEnv>, s: State, cached: bool)
    requires WellFormed(job, env, s) && RowInv(job, s)
    ensures RowInv(job, Step(job, env, s, cached))
  {
    hide Step, Granted, AtBoundary;
    var s' := Step(job, env, s, cached);
    StepRowsEvolve(job, env, s, cached);
    StepMoves(job, env, s, cached);
    StepWrites(job, env, s, cached);
    if s'.phase.IntentStored? && s.phase.AtOp? {
      StoredMeansPermitted(job, env, s, cached);
      var row := IntentFor(job, job.plan.operations[s.i], Del(job, s.i));
      assert s'.db.intents[|s.db.intents|] == row;
      assert IsRowOf(job, row, s.i);
    } else if s.phase.IntentStored? && s'.phase.MarkedMutating? {
      var r :| 0 <= r < |s.db.intents| && IsRowOf(job, s.db.intents[r], s.i);
      assert IsRowOf(job, s'.db.intents[r], s.i) && s'.db.intents[r].state == Mutating;
    } else if s.phase.MarkedMutating? || s.phase.ParentOpen? {
      JournaledPersists(job, s.db.intents, s'.db.intents, s.i);
    }
  }

  lemma StepKeepsJournalInv(job: Job, env: seq<OpEnv>, tree0: Tree, s: State, cached: bool)
    requires WellFormed(job, env, s)
    requires DiskInv(job, tree0, s) && JournalInv(job, tree0, s)
    ensures JournalInv(job, tree0, Step(job, env, s, cached))
  {
    hide Step, DiskInv;
    var s' := Step(job, env, s, cached);
    StepKeepsRowInv(job, env, s, cached);
    StepRowsEvolve(job, env, s, cached);
    forall edge | Removed(tree0, s'.tree, edge)
      ensures exists k :: Explained(job, tree0, s'.db.intents, k, edge)
    {
      if edge in s.tree {
        StepRemovesNamedEntry(job, env, tree0, s, cached, edge);
        assert Explained(job, tree0, s'.db.intents, s.i, edge);
      } else {
        assert Removed(tree0, s.tree, edge);
        var k :| Explained(job, tree0, s.db.intents, k, edge);
        JournaledPersists(job, s.db.intents, s'.db.intents, k);
        assert Explained(job, tree0, s'.db.intents, k, edge);
      }
    }
  }

  /** A step that removes an entry is the mutation step of an operation that names it. */
  lemma StepRemovesNamedEntry(job: Job, env: seq<OpEnv>, tree0: Tree, s: State, cached: bool, edge: Edge)
    requires WellFormed(job, env, s)
    requires DiskInv(job, tree0, s)
    requires edge in s.tree && edge !in Step(job, env, s, cached).tree
    ensures s.phase == ParentOpen(edge.dir, edge.name)
    ensures Names(job, tree0, s.i, edge)
    ensures Step(job, env, s, cached).tree == s.tree - {edge}
    ensures AtPath(job, s.tree, Del(job, s.i), edge.dir, edge.name)
  {
    hide Step, Walk, Components;
    StepTouchesDisk(job, env, s, cached);
    var d := Del(job, s.i);
    var path := Components(d.relPath);
    MutationEffect(s.tree, d, s.phase.dir, s.phase.leaf, env[s.i].mutation);
    WalkIsMonotone(s.tree, tree0, job.roots[job.catalog.targets[d.target].base], path[..|path| - 1], 1);
  }

  lemma {:induction false} JournalInvAlways(job: Job, env: seq<OpEnv>, tree0: Tree, db0: Tables, cached: bool, n: nat)
    requires |env| == |job.plan.operations| && CatalogOk(job.catalog)
    ensures JournalInv(job, tree0, Run(job, env, Init(tree0, db0), cached, n))
    decreases n
  {
    hide Step;
    if n > 0 {
      JournalInvAlways(job, env, tree0, db0, cached, n - 1);
      DiskInvAlways(job, env, tree0, db0, cached, n - 1);
      StepKeepsJournalInv(job, env, tree0, Run(job, env, Init(tree0, db0), cached, n - 1), cached);
    }
  }

  // ------------------------------------------------------------------ Main results

  /**
   Crash safety. At every step of every run, every entry missing since the start is named by a
   permitted operation of the plan, with that entry's identity and kind, and the operation's intent
   is durable and marked; every entry that is left is unchanged and nothing was added.
   */
  lemma CrashSafe(job: Job, env: seq<OpEnv>, tree0: Tree, db0: Tables, n: nat)
    requires |env| == |job.plan.operations| && CatalogOk(job.catalog)
    ensures
      var s := Run(job, env, Init(tree0, db0), true, n);
      && Below(s.tree, tree0)
      && forall edge :: Removed(tree0, s.tree, edge) ==> exists k :: Explained(job, tree0, s.db.intents, k, edge)
  {
    DiskInvAlways(job, env, tree0, db0, true, n);
    JournalInvAlways(job, env, tree0, db0, true, n);
  }

  /** No two paths below target roots lead into the same directory: roots are disjoint trees. */
  ghost predicate NoAliases(job: Job, tree: Tree) {
    forall t, p, u, q ::
      DirAt(job, tree, t, p).Ok? && DirAt(job, tree, t, p) == DirAt(job, tree, u, q) ==> t == u && p == q
  }

  /** Some operation of the plan deletes exactly this path of this target. */
  ghost predicate Planned(job: Job, target: TargetId, path: seq<Name>) {
    exists k :: IsDeletionOp(job, k) && Del(job, k).target == target && Components(Del(job, k).relPath) == path
  }

  /** Without aliases an operation that names an entry plans the entry's path. */
  lemma NamingIsPlanning(job: Job, tree0: Tree, k: nat, target: TargetId, path: seq<Name>, edge: Edge)
    requires NoAliases(job, tree0)
    requires path != [] && DirAt(job, tree0, target, path[..|path| - 1]) == Ok(edge.dir)
    requires edge.name == path[|path| - 1]
    requires Names(job, tree0, k, edge)
    ensures Del(job, k).target == target && Components(Del(job, k).relPath) == path
  {
    hide Walk, Components;
    var named := Components(Del(job, k).relPath);
    assert DirAt(job, tree0, Del(job, k).target, named[..|named| - 1]) == DirAt(job, tree0, target, path[..|path| - 1]);
    assert named[..|named| - 1] == path[..|path| - 1];
    assert named == named[..|named| - 1] + [named[|named| - 1]];
    assert path == path[..|path| - 1] + [path[|path| - 1]];
  }

  /** An unplanned entry stays. */
  lemma UnplannedEntrySurvives(
    job: Job, env: seq<OpEnv>, tree0: Tree, db0: Tables, n: nat, target: TargetId, path: seq<Name>, edge: Edge)
    requires |env| == |job.plan.operations| && CatalogOk(job.catalog)
    requires NoAliases(job, tree0)
    requires path != [] && DirAt(job, tree0, target, path[..|path| - 1]) == Ok(edge.dir)
    requires edge.name == path[|path| - 1] && edge in tree0
    requires !Planned(job, target, path)
    ensures edge in Run(job, env, Init(tree0, db0), true, n).tree
  {
    var s := Run(job, env, Init(tree0, db0), true, n);
    CrashSafe(job, env, tree0, db0, n);
    if Removed(tree0, s.tree, edge) {
      var k :| Explained(job, tree0, s.db.intents, k, edge);
      NamingIsPlanning(job, tree0, k, target, path, edge);
    }
  }

  /** As long as something is left in the directory at the end of a path, the whole path is left. */
  lemma {:induction false} AncestorsSurvive(tree0: Tree, tree: Tree, dir: Identity, path: seq<Name>, at: nat)
    requires Below(tree, tree0) && NoOrphans(tree0, tree)
    requires Walk(tree0, dir, path, map[], at).Ok?
    requires !IsEmptyDir(tree, Walk(tree0, dir, path, map[], at).value)
    ensures Walk(tree, dir, path, map[], at) == Walk(tree0, dir, path, map[], at)
    ensures path != [] ==> !IsEmptyDir(tree, dir)
    decreases |path|
  {
    if path != [] {
      var edge := Edge(dir, path[0]);
      AncestorsSurvive(tree0, tree, tree0[edge].id, path[1..], at + 1);
      assert !Removed(tree0, tree, edge);
    }
  }

  /**
   Every entry that no operation plans survives at every step of every run, together with all its
   ancestors: it is reachable at the same path and is the same entry.
   */
  lemma UnplannedPathSurvives(
    job: Job, env: seq<OpEnv>, tree0: Tree, db0: Tables, n: nat, target: TargetId, path: seq<Name>, edge: Edge)
    requires |env| == |job.plan.operations| && CatalogOk(job.catalog)
    requires NoAliases(job, tree0)
    requires path != [] && DirAt(job, tree0, target, path[..|path| - 1]) == Ok(edge.dir)
    requires edge.name == path[|path| - 1] && edge in tree0
    requires !Planned(job, target, path)
    ensures
      var s := Run(job, env, Init(tree0, db0), true, n);
      && DirAt(job, s.tree, target, path[..|path| - 1]) == Ok(edge.dir)
      && edge in s.tree && s.tree[edge] == tree0[edge]
  {
    var s := Run(job, env, Init(tree0, db0), true, n);
    DiskInvAlways(job, env, tree0, db0, true, n);
    UnplannedEntrySurvives(job, env, tree0, db0, n, target, path, edge);
    assert !IsEmptyDir(s.tree, edge.dir);
    AncestorsSurvive(tree0, s.tree, job.roots[job.catalog.targets[target].base], path[..|path| - 1], 1);
  }
}
