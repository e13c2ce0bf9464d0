/**
 The other half of safety: where nothing interferes, the executor deletes everything that was planned,
 nothing else, and books it all.
 */
module Completeness {
  import opened Domain
  import opened Paths
  import opened Filesystem
  import opened Verification
  import opened Durability
  import opened Authorization
  import opened Execution
  import opened CrashSafety
  import opened Ordering
  import opened Planning
  import opened BottomUp
  import opened Accounting
  import opened CrashRecovery
  import opened Workers

  /** Nothing interferes with the operation. */
  predicate Clean(e: OpEnv) {
    e == OpEnv(false, false, false, false, map[], MutationFaults(None, None), None, false, false)
  }

  function EdgeSet(edges: seq<Edge>): set<Edge> {
    set e | e in edges
  }

  /** Operation `k` may run, its entry is there as planned, and what has to go first is planned earlier. */
  ghost predicate Executable(job: Job, tree0: Tree, edges: seq<Edge>, k: nat)
    requires k < |edges| == |job.plan.operations|
  {
    && Permitted(job, k)
    && Names(job, tree0, k, edges[k]) && ValidComponent(edges[k].name)
    && edges[k] !in edges[..k]
    && (forall j :: 0 <= j < k ==> job.plan.operations[j].id != job.plan.operations[k].id)
    && (forall dep :: dep in job.plan.operations[k].deps ==> NamedBefore(job, k, dep))
    && (Del(job, k).isDir ==> forall edge :: edge in tree0 && edge.dir == tree0[edges[k]].id ==> edge in edges[..k])
  }

  ghost predicate Feasible(job: Job, tree0: Tree, edges: seq<Edge>) {
    |edges| == |job.plan.operations| && forall k :: 0 <= k < |edges| ==> Executable(job, tree0, edges, k)
  }

  ghost predicate Quietly(job: Job, env: seq<OpEnv>) {
    |env| == |job.plan.operations| && forall k :: 0 <= k < |env| ==> Clean(env[k])
  }

  /** The result of a deletion that went through. */
  ghost function FullCredit(job: Job, k: nat): OpResult
    requires k < |job.plan.operations|
  {
    OpResult(job.plan.operations[k].id, Success, BytesOf(job.plan.operations[k]))
  }

  /** Everything booked so far went through, and the disk has lost exactly the first `gone` planned entries. */
  ghost predicate OnTrack(job: Job, tree0: Tree, edges: seq<Edge>, s: State, gone: nat)
    requires gone <= |edges|
  {
    && DiskInv(job, tree0, s) && KeysInv(job, s) && job.plan.jobId in s.db.jobs
    && s.tree == tree0 - EdgeSet(edges[..gone])
    && |s.results| <= |job.plan.operations|
    && (forall k :: 0 <= k < |s.results| ==> s.results[k] == FullCredit(job, k))
    && (forall k :: 0 <= k < |s.results| ==> job.plan.operations[k].id in s.succeeded)
  }

  /** What every step keeps, apart from the disk and the results. */
  lemma StepKeepsTrack(job: Job, env: seq<OpEnv>, tree0: Tree, edges: seq<Edge>, s: State, gone: nat)
    requires WellFormed(job, env, s) && CatalogOk(job.catalog) && gone <= |edges|
    requires OnTrack(job, tree0, edges, s, gone) && !s.phase.ParentOpen? && Quiet(s, Step(job, env, s, true))
    ensures OnTrack(job, tree0, edges, Step(job, env, s, true), gone)
  {
    hide Step, DiskInv, KeysInv, FullCredit;
    StepKeepsDiskInv(job, env, tree0, s, true);
    StepKeepsKeysInv(job, env, s, true);
    StepKeepsOtherTables(job, env, s, true);
    StepTouchesDisk(job, env, s, true);
  }

  lemma GatePasses(job: Job, env: seq<OpEnv>, tree0: Tree, edges: seq<Edge>, s: State)
    requires WellFormed(job, env, s) && Feasible(job, tree0, edges) && Quietly(job, env)
    requires s.phase.AtOp? && s.i < |edges| && |s.results| == s.i && OnTrack(job, tree0, edges, s, s.i)
    ensures IsDeletionOp(job, s.i) && Decide(job, env[s.i], s.succeeded,
      job.plan.operations[s.i]) == Proceed(Del(job, s.i))
    ensures CommitIntent(s.db, IntentFor(job, job.plan.operations[s.i], Del(job, s.i))).Some?
  {
    hide DiskInv, AtBoundary, Granted, FullCredit, Names;
    var op := job.plan.operations[s.i];
    assert Executable(job, tree0, edges, s.i) && Clean(env[s.i]);
    forall dep | dep in op.deps ensures dep in s.succeeded {
      assert NamedBefore(job, s.i, dep);
      var j :| 0 <= j < s.i && job.plan.operations[j].id == dep;
      assert job.plan.operations[j].id in s.succeeded;
    }
    forall r | 0 <= r < |s.db.intents| ensures !KeyIs(s.db.intents[r], job.attempt, op.id) {
      assert s.db.intents[r].attempt == job.attempt ==> NamedBefore(job, s.i, s.db.intents[r].op);
    }
  }

  lemma StoreStep(job: Job, env: seq<OpEnv>, tree0: Tree, edges: seq<Edge>, s: State)
    requires WellFormed(job, env, s) && Feasible(job, tree0, edges) && Quietly(job, env) && CatalogOk(job.catalog)
    requires s.phase.AtOp? && s.i < |edges| && |s.results| == s.i && OnTrack(job, tree0, edges, s, s.i)
    ensures
      var s' := Step(job, env, s, true);
      s'.phase == IntentStored && s'.i == s.i && Quiet(s, s') && OnTrack(job, tree0, edges, s', s.i)
  {
    hide OnTrack, Decide, CommitIntent, IntentFor, Executable;
    GatePasses(job, env, tree0, edges, s);
    assert Clean(env[s.i]);
    StepKeepsTrack(job, env, tree0, edges, s, s.i);
  }

  lemma MarkStep(job: Job, env: seq<OpEnv>, tree0: Tree, edges: seq<Edge>, s: State)
    requires WellFormed(job, env, s) && Quietly(job, env) && CatalogOk(job.catalog)
    requires s.phase.IntentStored? && s.i < |edges| && OnTrack(job, tree0, edges, s, s.i)
    ensures
      var s' := Step(job, env, s, true);
      s'.phase == MarkedMutating && s'.i == s.i && Quiet(s, s') && OnTrack(job, tree0, edges, s', s.i)
  {
    hide OnTrack, SetIntentState;
    assert Clean(env[s.i]);
    StepKeepsTrack(job, env, tree0, edges, s, s.i);
  }

  /** The planned entry is still there, so its whole path is. */
  lemma PathStillThere(job: Job, tree0: Tree, edges: seq<Edge>, s: State)
    requires Feasible(job, tree0, edges) && s.i < |edges| && OnTrack(job, tree0, edges, s, s.i)
    ensures edges[s.i] in s.tree && edges[s.i] in tree0 && s.tree[edges[s.i]] == tree0[edges[s.i]]
    ensures IsDeletionOp(job, s.i) && AtPath(job, s.tree, Del(job, s.i), edges[s.i].dir, edges[s.i].name)
  {
    hide Walk, Components, KeysInv, Permitted;
    assert Executable(job, tree0, edges, s.i);
    var d := Del(job, s.i);
    var path := Components(d.relPath);
    assert !IsEmptyDir(s.tree, edges[s.i].dir) by { assert edges[s.i] in s.tree; }
    AncestorsSurvive(tree0, s.tree, job.roots[job.catalog.targets[d.target].base], path[..|path| - 1], 1);
  }

  lemma OpenStep(job: Job, env: seq<OpEnv>, tree0: Tree, edges: seq<Edge>, s: State)
    requires WellFormed(job, env, s) && Feasible(job, tree0, edges) && Quietly(job, env) && CatalogOk(job.catalog)
    requires s.phase.MarkedMutating? && s.i < |edges| && OnTrack(job, tree0, edges, s, s.i)
    ensures
      var s' := Step(job, env, s, true);
      && s'.phase == ParentOpen(edges[s.i].dir, edges[s.i].name) && s'.i == s.i && Quiet(s, s')
      && OnTrack(job, tree0, edges, s', s.i)
  {
    hide OnTrack, Walk, Components, Executable;
    PathStillThere(job, tree0, edges, s);
    assert Clean(env[s.i]);
    assert CacheInv(job, s) by { CacheOnTrack(job, tree0, edges, s); }
    StepKeepsTrack(job, env, tree0, edges, s, s.i);
  }

  lemma CacheOnTrack(job: Job, tree0: Tree, edges: seq<Edge>, s: State)
    requires s.i <= |edges| && OnTrack(job, tree0, edges, s, s.i)
    ensures CacheInv(job, s)
  {
  }

  /** By now everything in the directory is gone. */
  lemma DirectoryIsEmpty(job: Job, tree0: Tree, edges: seq<Edge>, s: State)
    requires Feasible(job, tree0, edges) && s.i < |edges| && OnTrack(job, tree0, edges, s, s.i)
    requires Executable(job, tree0, edges, s.i) && Del(job, s.i).isDir
    ensures IsEmptyDir(s.tree, tree0[edges[s.i]].id)
  {
    hide DiskInv, KeysInv, Names, Permitted;
    assert Executable(job, tree0, edges, s.i);
  }

  lemma RemoveStep(job: Job, env: seq<OpEnv>, tree0: Tree, edges: seq<Edge>, s: State)
    requires WellFormed(job, env, s) && Feasible(job, tree0, edges) && Quietly(job, env) && CatalogOk(job.catalog)
    requires s.i < |edges| && s.phase == ParentOpen(edges[s.i].dir, edges[s.i].name) && OnTrack(job, tree0, edges,
      s, s.i)
    ensures
      var s' := Step(job, env, s, true);
      && s'.phase == Mutated(edges[s.i].dir, edges[s.i].name, true) && s'.i == s.i && Quiet(s, s')
      && OnTrack(job, tree0, edges, s', s.i + 1)
  {
    hide Step, DiskInv, KeysInv, FullCredit, Permitted, AtPath;
    var s' := Step(job, env, s, true);
    var edge := edges[s.i];
    assert Executable(job, tree0, edges, s.i) && Clean(env[s.i]);
    PathStillThere(job, tree0, edges, s);
    if Del(job, s.i).isDir {
      DirectoryIsEmpty(job, tree0, edges, s);
    }
    StepMoves(job, env, s, true);
    StepTouchesDisk(job, env, s, true);
    StepKeepsDiskInv(job, env, tree0, s, true);
    StepKeepsKeysInv(job, env, s, true);
    StepKeepsOtherTables(job, env, s, true);
    OneMoreGone(tree0, edges, s.i);
  }

  lemma OneMoreGone(tree0: Tree, edges: seq<Edge>, k: nat)
    requires k < |edges|
    ensures tree0 - EdgeSet(edges[..k]) - {edges[k]} == tree0 - EdgeSet(edges[..k + 1])
  {
    assert edges[..k + 1] == edges[..k] + [edges[k]];
    assert EdgeSet(edges[..k + 1]) == EdgeSet(edges[..k]) + {edges[k]};
  }

  lemma BookStep(job: Job, env: seq<OpEnv>, tree0: Tree, edges: seq<Edge>, s: State)
    requires WellFormed(job, env, s) && Feasible(job, tree0, edges) && Quietly(job, env) && CatalogOk(job.catalog)
    requires s.i < |edges| && s.phase == Mutated(edges[s.i].dir, edges[s.i].name, true) && |s.results| == s.i
    requires OnTrack(job, tree0, edges, s, s.i + 1)
    ensures
      var s' := Step(job, env, s, true);
      && s'.phase == Resolved(FullCredit(job, s.i)) && s'.i == s.i && |s'.results| == s.i + 1
      && OnTrack(job, tree0, edges, s', s.i + 1)
  {
    hide DiskInv, KeysInv, Executable, SetIntentState;
    var s' := Step(job, env, s, true);
    assert Executable(job, tree0, edges, s.i) && Clean(env[s.i]);
    assert edges[s.i] in EdgeSet(edges[..s.i + 1]) by { assert edges[..s.i + 1][s.i] == edges[s.i]; }
    NamedLeafIsValid(job, tree0, edges, s.i);
    assert s'.phase == Resolved(FullCredit(job, s.i)) && s'.results == s.results + [FullCredit(job, s.i)];
    StepKeepsDiskInv(job, env, tree0, s, true);
    StepKeepsKeysInv(job, env, s, true);
    StepKeepsOtherTables(job, env, s, true);
  }

  lemma NamedLeafIsValid(job: Job, tree0: Tree, edges: seq<Edge>, k: nat)
    requires k < |edges| == |job.plan.operations| && Executable(job, tree0, edges, k)
    ensures ValidComponent(edges[k].name)
  {
  }

  lemma RecordStep(job: Job, env: seq<OpEnv>, tree0: Tree, edges: seq<Edge>, s: State)
    requires WellFormed(job, env, s) && CatalogOk(job.catalog)
    requires s.phase.Resolved? && s.i < |edges| && OnTrack(job, tree0, edges, s, s.i + 1)
    ensures
      var s' := Step(job, env, s, true);
      s'.phase == AtOp && s'.i == s.i + 1 && Quiet(s, s') && OnTrack(job, tree0, edges, s', s.i + 1)
  {
    hide OnTrack, Step;
    StepMoves(job, env, s, true);
    StepKeepsTrack(job, env, tree0, edges, s, s.i + 1);
  }

  /** One whole operation: six steps lead to the next one. */
  lemma OperationGoesThrough(job: Job, env: seq<OpEnv>, tree0: Tree, edges: seq<Edge>, s: State) returns (s': State)
    requires WellFormed(job, env, s) && Feasible(job, tree0, edges) && Quietly(job, env) && CatalogOk(job.catalog)
    requires s.phase.AtOp? && s.i < |edges| && |s.results| == s.i && OnTrack(job, tree0, edges, s, s.i)
    ensures WellFormed(job, env, s') && Final(job, env, s, true) == Final(job, env, s', true)
    ensures s'.phase.AtOp? && s'.i == s.i + 1 == |s'.results| && OnTrack(job, tree0, edges, s', s'.i)
  {
    hide Step, OnTrack, Feasible, Quietly, Final;
    assert |edges| == |job.plan.operations| by { SameLength(job, tree0, edges); }
    StoreStep(job, env, tree0, edges, s);
    var s1 := Step(job, env, s, true);
    FinalStep(job, env, s);
    MarkStep(job, env, tree0, edges, s1);
    var s2 := Step(job, env, s1, true);
    FinalStep(job, env, s1);
    OpenStep(job, env, tree0, edges, s2);
    var s3 := Step(job, env, s2, true);
    FinalStep(job, env, s2);
    RemoveStep(job, env, tree0, edges, s3);
    var s4 := Step(job, env, s3, true);
    FinalStep(job, env, s3);
    BookStep(job, env, tree0, edges, s4);
    var s5 := Step(job, env, s4, true);
    FinalStep(job, env, s4);
    RecordStep(job, env, tree0, edges, s5);
    FinalStep(job, env, s5);
    s' := Step(job, env, s5, true);
  }

  lemma SameLength(job: Job, tree0: Tree, edges: seq<Edge>)
    requires Feasible(job, tree0, edges)
    ensures |edges| == |job.plan.operations|
  {
  }

  lemma {:induction false} RestGoesThrough(job: Job, env: seq<OpEnv>, tree0: Tree, edges: seq<Edge>, s: State)
    requires WellFormed(job, env, s) && Feasible(job, tree0, edges) && Quietly(job, env) && CatalogOk(job.catalog)
    requires s.phase.AtOp? && s.i <= |edges| && |s.results| == s.i && OnTrack(job, tree0, edges, s, s.i)
    ensures
      var f := Final(job, env, s, true);
      f.phase.Done? && |f.results| == |edges| && OnTrack(job, tree0, edges, f, |edges|)
    decreases |edges| - s.i
  {
    hide Step, OnTrack;
    if s.i < |edges| {
      var s' := OperationGoesThrough(job, env, tree0, edges, s);
      RestGoesThrough(job, env, tree0, edges, s');
    } else {
      StepMoves(job, env, s, true);
      StepKeepsTrack(job, env, tree0, edges, s, s.i);
    }
  }

  /**
   A permitted plan whose entries are all there, with directories planned after everything in them, on a
   disk and a store without faults: every operation succeeds with its full credit, and the disk has lost
   exactly the planned entries.
   */
  lemma EverythingPlannedIsDeleted(job: Job, env: seq<OpEnv>, tree0: Tree, edges: seq<Edge>, db0: Tables)
    requires Feasible(job, tree0, edges) && Quietly(job, env) && CatalogOk(job.catalog)
    requires (forall op :: !HasKey(db0.intents, job.attempt, op)) && job.plan.jobId in db0.jobs
    ensures
      var f := Final(job, env, Init(tree0, db0), true);
      && f.phase.Done?
      && f.tree == tree0 - EdgeSet(edges)
      && |f.results| == |job.plan.operations| && (forall k :: 0 <= k < |f.results| ==>
        f.results[k] == FullCredit(job, k))
      && f.success == |job.plan.operations|
  {
    hide Step, Final, KeysInv, DiskInv, FullCredit;
    var s0 := Init(tree0, db0);
    DiskInvAlways(job, env, tree0, db0, true, 0);
    KeysInvAlways(job, env, tree0, db0, 0);
    assert edges[..0] == [] && tree0 - {} == tree0;
    RestGoesThrough(job, env, tree0, edges, s0);
    assert edges[..|edges|] == edges;
    var f := Final(job, env, s0, true);
    AllCounted(job, env, tree0, db0, f);
  }

  lemma AllCounted(job: Job, env: seq<OpEnv>, tree0: Tree, db0: Tables, f: State)
    requires |env| == |job.plan.operations| && f == Final(job, env, Init(tree0, db0), true)
    requires |f.results| == |job.plan.operations| && forall k :: 0 <= k < |f.results| ==>
      f.results[k] == FullCredit(job, k)
    ensures f.success == |job.plan.operations|
  {
    hide Final, Run, Step, FullCredit, ResultsInv;
    var n := FinalIsReached(job, env, Init(tree0, db0), true);
    SuccessesAreCounted(job, env, tree0, db0, n);
    forall k | 0 <= k < |f.results| ensures f.results[k].status == Success {
      CreditIsSuccess(job, k);
    }
    AllSuccesses(f.results);
  }

  lemma CreditIsSuccess(job: Job, k: nat)
    requires k < |job.plan.operations|
    ensures FullCredit(job, k).status == Success
  {
  }

  function Successes(results: seq<OpResult>): nat {
    if results == [] then 0
    else Successes(results[..|results| - 1]) + (if results[|results| - 1].status == Success then 1 else 0)
  }

  lemma {:induction false} AllSuccesses(results: seq<OpResult>)
    requires forall k :: 0 <= k < |results| ==> results[k].status == Success
    ensures Successes(results) == |results|
  {
    if results != [] {
      AllSuccesses(results[..|results| - 1]);
    }
  }

  /** The success counter is the number of successful results, at every step. */
  lemma {:induction false} SuccessesAreCounted(job: Job, env: seq<OpEnv>, tree0: Tree, db0: Tables, n: nat)
    requires |env| == |job.plan.operations|
    ensures
      var s := Run(job, env, Init(tree0, db0), true, n);
      s.success == Successes(s.results)
    decreases n
  {
    hide Step;
    if n > 0 {
      SuccessesAreCounted(job, env, tree0, db0, n - 1);
      var s := Run(job, env, Init(tree0, db0), true, n - 1);
      var s' := Step(job, env, s, true);
      StepBooks(job, env, s, true);
      if BooksLast(s, s') {
        assert s'.results[..|s'.results| - 1] == s.results;
      }
    }
  }

  // ------------------------------------------------------------------ Built plans

  /** Each permit names an entry of its own, and what lies in a permitted directory is permitted too. */
  ghost predicate WholeSelection(job: Job, tree0: Tree, ps: seq<Permit>, edges: seq<Edge>) {
    && |edges| == |ps| == |job.plan.operations|
    && (forall k :: 0 <= k < |ps| ==>
      Permitted(job, k) && Names(job, tree0, k, edges[k]) && ValidComponent(edges[k].name))
    && (forall j, k :: 0 <= j < k < |ps| ==> edges[j] != edges[k])
    && (forall k, edge :: 0 <= k < |ps| && ps[k].kind.OfDirectory? && LiesIn(tree0, edge, edges[k]) ==>
      ContentPlanned(ps, edges, k, edge))
  }

  ghost predicate LiesIn(tree0: Tree, edge: Edge, dir: Edge) {
    dir in tree0 && edge in tree0 && edge.dir == tree0[dir].id
  }

  ghost predicate ContentPlanned(ps: seq<Permit>, edges: seq<Edge>, k: nat, edge: Edge)
    requires k < |ps| == |edges|
  {
    exists j: nat :: j < |ps| && edges[j] == edge && StrictlyBelow(ps, j, k)
  }

  lemma BuiltDependenciesComeFirst(job: Job, permits: seq<Permit>, k: nat, dep: nat)
    requires Executes(job, permits) && Plannable(permits) && k < |job.plan.operations|
    requires dep in job.plan.operations[k].deps
    ensures NamedBefore(job, k, dep)
  {
    hide Arranged, StrictlyBelow, Plannable;
    var ps := Arranged(permits);
    assert ps[k].kind.OfDirectory?;
    DependenciesAreDescendants(permits, k, dep);
    assert job.plan.operations[dep - 1].id == dep;
  }

  lemma BuiltContentComesFirst(job: Job, permits: seq<Permit>, tree0: Tree, edges: seq<Edge>, k: nat, edge: Edge)
    requires Executes(job, permits) && Plannable(permits) && WholeSelection(job, tree0, Arranged(permits), edges)
    requires k < |edges| && Arranged(permits)[k].kind.OfDirectory? && LiesIn(tree0, edge, edges[k])
    ensures edge in edges[..k]
  {
    hide Arranged, StrictlyBelow, Plannable, Permitted, Names;
    var ps := Arranged(permits);
    assert ContentPlanned(ps, edges, k, edge);
    var j: nat :| j < |ps| && edges[j] == edge && StrictlyBelow(ps, j, k);
    DescendantsComeFirst(permits, j, k);
    assert edges[..k][j] == edge;
  }

  lemma BuiltOperationIsExecutable(job: Job, permits: seq<Permit>, tree0: Tree, edges: seq<Edge>, k: nat)
    requires Executes(job, permits) && Plannable(permits) && WholeSelection(job, tree0, Arranged(permits), edges)
    requires k < |edges|
    ensures Executable(job, tree0, edges, k)
  {
    hide Arranged, ContentPlanned, Plannable, Permitted, DependenciesUpTo, NamedBefore;
    assert Names(job, tree0, k, edges[k]);
    forall dep | dep in job.plan.operations[k].deps ensures NamedBefore(job, k, dep) {
      BuiltDependenciesComeFirst(job, permits, k, dep);
    }
    if Del(job, k).isDir {
      forall edge | edge in tree0 && edge.dir == tree0[edges[k]].id ensures edge in edges[..k] {
        BuiltContentComesFirst(job, permits, tree0, edges, k, edge);
      }
    }
  }

  lemma BuiltPlanIsFeasible(job: Job, permits: seq<Permit>, tree0: Tree, edges: seq<Edge>)
    requires Executes(job, permits) && Plannable(permits) && WholeSelection(job, tree0, Arranged(permits), edges)
    ensures Feasible(job, tree0, edges)
  {
    hide Arranged, Executable, Plannable, Permitted, Names, Executes;
    forall k | 0 <= k < |edges| ensures Executable(job, tree0, edges, k) {
      BuiltOperationIsExecutable(job, permits, tree0, edges, k);
    }
  }

  lemma {:induction false} CreditsAreExact(results: seq<OpResult>, ps: seq<Permit>, n: nat)
    requires n == |results| <= |ps|
    requires forall k :: 0 <= k < n ==> results[k].reclaimed == BytesOf(OperationAt(ps, k))
    ensures Credits(results) == ExactFileBytes(ps[..n])
    decreases n
  {
    if n > 0 {
      CreditsAreExact(results[..n - 1], ps, n - 1);
      assert ps[..n][..n - 1] == ps[..n - 1];
    }
  }

  /**
   Plan and execute, with nothing interfering: a selection that contains the content of its directories
   is deleted completely, nothing else is, and the reclaimed bytes are the plan's estimate.
   */
  lemma SelectionIsDeleted(job: Job, permits: seq<Permit>, env: seq<OpEnv>, tree0: Tree, edges: seq<Edge>, db0: Tables)
    requires job.plan == PlanFor(job.plan.jobId, job.plan.catalogGen, job.plan.configGen, permits)
    requires Plannable(permits) && |permits| <= MAX_OPERATIONS && Measured(permits)
    requires WholeSelection(job, tree0, Arranged(permits), edges) && Quietly(job, env) && CatalogOk(job.catalog)
    requires (forall op :: !HasKey(db0.intents, job.attempt, op)) && job.plan.jobId in db0.jobs
    ensures
      var f := Final(job, env, Init(tree0, db0), true);
      f.phase.Done? && f.tree == tree0 - EdgeSet(edges) && f.success == |permits| && f.total == job.plan.total
  {
    hide Final, Arranged, FileBytes, ExactFileBytes, Credits, Plannable, WholeSelection, Feasible, CatalogOk;
    var ps := Arranged(permits);
    var f := Final(job, env, Init(tree0, db0), true);
    BuiltPlanIsFeasible(job, permits, tree0, edges);
    EverythingPlannedIsDeleted(job, env, tree0, edges, db0);
    FiguresAddUp(job, env, tree0, db0);
    ArrangedIsPermutation(permits);
    assert |ps| == |permits| by { assert |multiset(ps)| == |multiset(permits)|; }
    forall p | p in ps ensures p in permits {
      assert p in multiset(ps);
    }
    NoClamp(ps);
    CreditsAreExact(f.results, ps, |ps|);
    assert ps[..|ps|] == ps;
  }
}
