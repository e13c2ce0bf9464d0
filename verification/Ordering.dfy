/**
 Success is verified absence, and it is a precondition of everything that depends on it: an entry
 is removed only when all dependencies of its operation were verified absent before, and they stay so.
 */
module Ordering {
  import opened Domain
  import opened Paths
  import opened Filesystem
  import opened Verification
  import opened Durability
  import opened Authorization
  import opened Execution
  import opened CrashSafety

  /** Operation `k` has a durable intent that is resolved as a verified success. */
  ghost predicate VerifiedRow(job: Job, rows: seq<Intent>, k: nat)
    requires IsDeletionOp(job, k)
  {
    exists r :: 0 <= r < |rows| && IsRowOf(job, rows[r], k) && rows[r].state == VerifiedSuccess
  }

  ghost predicate Succeeded(job: Job, s: State, k: nat) {
    k < |s.results| && s.results[k].status == Success
  }

  /** What a success means: nothing is at the path any more and the journal says so. */
  ghost predicate SuccessIsReal(job: Job, s: State, k: nat) {
    IsDeletionOp(job, k) && Gone(job, s.tree, Del(job, k)) && VerifiedRow(job, s.db.intents, k)
  }

  ghost predicate SucceededAs(job: Job, s: State, id: nat) {
    exists k: nat :: Succeeded(job, s, k) && k < |job.plan.operations| && job.plan.operations[k].id == id
  }

  ghost predicate ResultsInv(job: Job, s: State) {
    && |s.results| == (if s.phase.Resolved? then s.i + 1 else s.i) <= |job.plan.operations|
    && (forall k :: 0 <= k < |s.results| ==> s.results[k].id == job.plan.operations[k].id)
    && (forall id :: id in s.succeeded ==> SucceededAs(job, s, id))
    && (InFlight(s.phase) && s.i < |job.plan.operations| ==> forall d :: d in job.plan.operations[s.i].deps ==>
      d in s.succeeded)
  }

  /** While an operation is in flight its identifier is not that of an earlier success. */
  ghost predicate FreshId(job: Job, s: State) {
    InFlight(s.phase) && !s.phase.Resolved? && s.i < |job.plan.operations| ==>
      forall k: nat :: Succeeded(job, s, k) && k < |job.plan.operations| ==>
        job.plan.operations[k].id != job.plan.operations[s.i].id
  }

  ghost predicate SuccessInv(job: Job, s: State) {
    ResultsInv(job, s) && FreshId(job, s) && forall k: nat :: Succeeded(job, s, k) ==> SuccessIsReal(job, s, k)
  }

  /** Every success after a step has a result, and its operation. */
  lemma SuccessesHaveResults(job: Job, env: seq<OpEnv>, s: State, cached: bool, id: nat)
    requires WellFormed(job, env, s) && ResultsInv(job, s) && id in Step(job, env, s, cached).succeeded
    ensures SucceededAs(job, Step(job, env, s, cached), id)
  {
    hide Step;
    var s' := Step(job, env, s, cached);
    StepMoves(job, env, s, cached);
    if id in s.succeeded {
      var k: nat :| Succeeded(job, s, k) && job.plan.operations[k].id == id;
      assert Succeeded(job, s', k);
    } else {
      assert Succeeded(job, s', s.i);
    }
  }

  lemma StepKeepsResultsInv(job: Job, env: seq<OpEnv>, s: State, cached: bool)
    requires WellFormed(job, env, s) && ResultsInv(job, s)
    ensures ResultsInv(job, Step(job, env, s, cached))
    ensures s.results <= Step(job, env, s, cached).results
    ensures s.succeeded <= Step(job, env, s, cached).succeeded
  {
    hide Step, SucceededAs;
    var s' := Step(job, env, s, cached);
    StepMoves(job, env, s, cached);
    forall id | id in s'.succeeded ensures SucceededAs(job, s', id) {
      SuccessesHaveResults(job, env, s, cached, id);
    }
  }

  /** Setting the state of one key leaves the verified rows of other keys alone. */
  lemma VerifiedRowPersists(job: Job, s: State, s': State, k: nat, op: nat, state: IntentState)
    requires IsDeletionOp(job, k) && VerifiedRow(job, s.db.intents, k)
    requires job.plan.operations[k].id != op
    requires s'.db.intents == SetIntentState(s.db, job.attempt, op, state).intents
    ensures VerifiedRow(job, s'.db.intents, k)
  {
    var r :| 0 <= r < |s.db.intents| && IsRowOf(job, s.db.intents[r], k) && s.db.intents[r].state == VerifiedSuccess;
    assert s'.db.intents[r] == s.db.intents[r];
  }

  lemma OldSuccessStaysReal(job: Job, env: seq<OpEnv>, tree0: Tree, s: State, cached: bool, k: nat)
    requires WellFormed(job, env, s)
    requires DiskInv(job, tree0, s) && SuccessInv(job, s)
    requires Succeeded(job, s, k)
    ensures SuccessIsReal(job, Step(job, env, s, cached), k)
  {
    hide Step, Components, VerifiedRow;
    var s' := Step(job, env, s, cached);
    assert SuccessIsReal(job, s, k);
    assert Below(s'.tree, s.tree) by {
      StepTouchesDisk(job, env, s, cached);
      if s.phase.ParentOpen? {
        MutationEffect(s.tree, Del(job, s.i), s.phase.dir, s.phase.leaf, env[s.i].mutation);
      }
    }
    var d := Del(job, k);
    AbsenceIsMonotone(s'.tree, s.tree, job.roots[job.catalog.targets[d.target].base], Components(d.relPath));
    RowOfOldSuccess(job, env, s, cached, k);
  }

  lemma RowOfOldSuccess(job: Job, env: seq<OpEnv>, s: State, cached: bool, k: nat)
    requires WellFormed(job, env, s) && SuccessInv(job, s) && Succeeded(job, s, k)
    ensures VerifiedRow(job, Step(job, env, s, cached).db.intents, k)
  {
    hide Step, Gone, Components;
    var s' := Step(job, env, s, cached);
    StepMoves(job, env, s, cached);
    StepWrites(job, env, s, cached);
    assert SuccessIsReal(job, s, k);
    var r :| 0 <= r < |s.db.intents| && IsRowOf(job, s.db.intents[r], k) && s.db.intents[r].state == VerifiedSuccess;
    if s.phase.IntentStored? && s'.phase.MarkedMutating? {
      VerifiedRowPersists(job, s, s', k, job.plan.operations[s.i].id, Mutating);
    } else if s.phase.Mutated? && s'.phase.Resolved? {
      var op := job.plan.operations[s.i].id;
      var state :| s'.db == SetIntentState(s.db, job.attempt, op, state);
      VerifiedRowPersists(job, s, s', k, op, state);
    } else {
      assert s'.db.intents[r] == s.db.intents[r];
    }
  }

  lemma NewSuccessIsReal(job: Job, env: seq<OpEnv>, tree0: Tree, s: State, cached: bool)
    requires WellFormed(job, env, s)
    requires DiskInv(job, tree0, s) && RowInv(job, s) && ResultsInv(job, s)
    requires s.phase.Mutated?
    requires Succeeded(job, Step(job, env, s, cached), s.i)
    ensures SuccessIsReal(job, Step(job, env, s, cached), s.i)
  {
    hide SetIntentState, Components, Absent;
    ghost var verdict := VerifyAtParent(s.tree, s.phase.dir, s.phase.leaf, Del(job, s.i).expected, env[s.i].verify);
    assert IsDeletion(verdict);
    NewSuccessRow(job, env, s, cached);
  }

  lemma NewSuccessRow(job: Job, env: seq<OpEnv>, s: State, cached: bool)
    requires WellFormed(job, env, s) && RowInv(job, s) && ResultsInv(job, s)
    requires s.phase.Mutated?
    requires Succeeded(job, Step(job, env, s, cached), s.i)
    ensures VerifiedRow(job, Step(job, env, s, cached).db.intents, s.i)
  {
    hide Step, Permitted;
    StepMoves(job, env, s, cached);
    StepWrites(job, env, s, cached);
    var s' := Step(job, env, s, cached);
    var r :| 0 <= r < |s.db.intents| && IsRowOf(job, s.db.intents[r], s.i) && s.db.intents[r].state != Committed;
    assert IsRowOf(job, s'.db.intents[r], s.i) && s'.db.intents[r].state == VerifiedSuccess;
  }

  lemma StepKeepsFreshId(job: Job, env: seq<OpEnv>, s: State, cached: bool)
    requires WellFormed(job, env, s) && SuccessInv(job, s)
    ensures FreshId(job, Step(job, env, s, cached))
  {
    hide Step, Gone;
    var s' := Step(job, env, s, cached);
    StepMoves(job, env, s, cached);
    StepWrites(job, env, s, cached);
    if s.phase.AtOp? && s'.phase.IntentStored? {
      forall k: nat | Succeeded(job, s', k) && k < |job.plan.operations|
        ensures job.plan.operations[k].id != job.plan.operations[s.i].id
      {
        assert SuccessIsReal(job, s, k) by { assert Succeeded(job, s, k); }
        var r :| 0 <= r < |s.db.intents| && IsRowOf(job, s.db.intents[r],
          k) && s.db.intents[r].state == VerifiedSuccess;
        assert !KeyIs(s.db.intents[r], job.attempt, job.plan.operations[s.i].id);
      }
    } else if InFlight(s'.phase) {
      assert s'.i == s.i;
      assert forall k: nat :: Succeeded(job, s', k) && !s'.phase.Resolved? ==> Succeeded(job, s, k);
    }
  }

  lemma StepKeepsSuccessInv(job: Job, env: seq<OpEnv>, tree0: Tree, s: State, cached: bool)
    requires WellFormed(job, env, s)
    requires DiskInv(job, tree0, s) && RowInv(job, s) && SuccessInv(job, s)
    ensures SuccessInv(job, Step(job, env, s, cached))
  {
    hide Step, FreshId, SuccessIsReal;
    var s' := Step(job, env, s, cached);
    StepMoves(job, env, s, cached);
    StepKeepsResultsInv(job, env, s, cached);
    StepKeepsFreshId(job, env, s, cached);
    forall k: nat | Succeeded(job, s', k) ensures SuccessIsReal(job, s', k) {
      if k < |s.results| {
        OldSuccessStaysReal(job, env, tree0, s, cached, k);
      } else {
        assert s.phase.Mutated?;
        NewSuccessIsReal(job, env, tree0, s, cached);
      }
    }
  }

  lemma {:induction false} SuccessInvAlways(job: Job, env: seq<OpEnv>, tree0: Tree, db0: Tables, cached: bool, n: nat)
    requires |env| == |job.plan.operations| && CatalogOk(job.catalog)
    ensures SuccessInv(job, Run(job, env, Init(tree0, db0), cached, n))
    decreases n
  {
    hide Step;
    if n > 0 {
      SuccessInvAlways(job, env, tree0, db0, cached, n - 1);
      DiskInvAlways(job, env, tree0, db0, cached, n - 1);
      JournalInvAlways(job, env, tree0, db0, cached, n - 1);
      StepKeepsSuccessInv(job, env, tree0, Run(job, env, Init(tree0, db0), cached, n - 1), cached);
    }
  }

  // ------------------------------------------------------------------ Dependencies first

  /** Every dependency of operation `k` is an earlier operation, verified absent on disk and in the journal. */
  ghost predicate DependenciesVerified(job: Job, s: State, k: nat)
    requires k < |job.plan.operations|
  {
    forall dep :: dep in job.plan.operations[k].deps ==>
      exists j: nat :: Succeeded(job, s, j) && SuccessIsReal(job, s, j) && job.plan.operations[j].id == dep
  }

  /** Operation `k` explains the entry and nothing it depends on is missing from the successes. */
  ghost predicate InOrder(job: Job, tree0: Tree, s: State, k: nat, edge: Edge) {
    && Explained(job, tree0, s.db.intents, k, edge)
    && forall dep :: dep in job.plan.operations[k].deps ==> dep in s.succeeded
  }

  ghost predicate OrderInv(job: Job, tree0: Tree, s: State) {
    forall edge :: Removed(tree0, s.tree, edge) ==> exists k: nat :: InOrder(job, tree0, s, k, edge)
  }

  lemma StepKeepsInOrder(job: Job, env: seq<OpEnv>, tree0: Tree, s: State, cached: bool, k: nat, edge: Edge)
    requires WellFormed(job, env, s)
    requires ResultsInv(job, s) && InOrder(job, tree0, s, k, edge)
    ensures InOrder(job, tree0, Step(job, env, s, cached), k, edge)
  {
    StepRowsEvolve(job, env, s, cached);
    StepKeepsResultsInv(job, env, s, cached);
    JournaledPersists(job, s.db.intents, Step(job, env, s, cached).db.intents, k);
  }

  lemma RemovalIsInOrder(job: Job, env: seq<OpEnv>, tree0: Tree, s: State, cached: bool, edge: Edge)
    requires WellFormed(job, env, s)
    requires DiskInv(job, tree0, s) && RowInv(job, s) && ResultsInv(job, s)
    requires edge in s.tree && edge !in Step(job, env, s, cached).tree
    ensures InOrder(job, tree0, Step(job, env, s, cached), s.i, edge)
  {
    StepRemovesNamedEntry(job, env, tree0, s, cached, edge);
    assert InOrder(job, tree0, s, s.i, edge);
    StepKeepsInOrder(job, env, tree0, s, cached, s.i, edge);
  }

  lemma StepKeepsOrderInv(job: Job, env: seq<OpEnv>, tree0: Tree, s: State, cached: bool)
    requires WellFormed(job, env, s)
    requires DiskInv(job, tree0, s) && RowInv(job, s) && ResultsInv(job, s) && OrderInv(job, tree0, s)
    ensures OrderInv(job, tree0, Step(job, env, s, cached))
  {
    var s' := Step(job, env, s, cached);
    forall edge | Removed(tree0, s'.tree, edge) ensures exists k: nat :: InOrder(job, tree0, s', k, edge) {
      if edge in s.tree {
        RemovalIsInOrder(job, env, tree0, s, cached, edge);
      } else {
        var k: nat :| InOrder(job, tree0, s, k, edge);
        StepKeepsInOrder(job, env, tree0, s, cached, k, edge);
      }
    }
  }

  lemma {:induction false} OrderInvAlways(job: Job, env: seq<OpEnv>, tree0: Tree, db0: Tables, cached: bool, n: nat)
    requires |env| == |job.plan.operations| && CatalogOk(job.catalog)
    ensures OrderInv(job, tree0, Run(job, env, Init(tree0, db0), cached, n))
    decreases n
  {
    hide Step;
    if n > 0 {
      var s := Run(job, env, Init(tree0, db0), cached, n - 1);
      OrderInvAlways(job, env, tree0, db0, cached, n - 1);
      assert DiskInv(job, tree0, s) && RowInv(job, s) && ResultsInv(job, s) by {
        PrerequisitesAlways(job, env, tree0, db0, cached, n - 1);
      }
      StepKeepsOrderInv(job, env, tree0, s, cached);
      assert Run(job, env, Init(tree0, db0), cached, n) == Step(job, env, s, cached);
    }
  }

  lemma PrerequisitesAlways(job: Job, env: seq<OpEnv>, tree0: Tree, db0: Tables, cached: bool, n: nat)
    requires |env| == |job.plan.operations| && CatalogOk(job.catalog)
    ensures
      var s := Run(job, env, Init(tree0, db0), cached, n);
      DiskInv(job, tree0, s) && RowInv(job, s) && ResultsInv(job, s)
  {
    DiskInvAlways(job, env, tree0, db0, cached, n);
    JournalInvAlways(job, env, tree0, db0, cached, n);
    SuccessInvAlways(job, env, tree0, db0, cached, n);
  }

  /**
   At every crash point, each removed entry has an operation that explains it and whose dependencies
   are all verified absent, on the disk and in the journal, at that same point.
   */
  lemma DependenciesFirst(job: Job, env: seq<OpEnv>, tree0: Tree, db0: Tables, n: nat, edge: Edge)
    requires |env| == |job.plan.operations| && CatalogOk(job.catalog)
    requires Removed(tree0, Run(job, env, Init(tree0, db0), true, n).tree, edge)
    ensures
      var s := Run(job, env, Init(tree0, db0), true, n);
      exists k: nat :: Explained(job, tree0, s.db.intents, k, edge) && DependenciesVerified(job, s, k)
  {
    var s := Run(job, env, Init(tree0, db0), true, n);
    OrderInvAlways(job, env, tree0, db0, true, n);
    SuccessInvAlways(job, env, tree0, db0, true, n);
    var k: nat :| InOrder(job, tree0, s, k, edge);
    forall dep | dep in job.plan.operations[k].deps
      ensures exists j: nat :: Succeeded(job, s, j) && SuccessIsReal(job, s, j) && job.plan.operations[j].id == dep
    {
      var j: nat :| Succeeded(job, s, j) && job.plan.operations[j].id == dep;
      assert SuccessIsReal(job, s, j);
    }
    assert Explained(job, tree0, s.db.intents, k, edge) && DependenciesVerified(job, s, k);
  }

  // ------------------------------------------------------------------ The remembered handle

  lemma ParentIgnoresCache(job: Job, e: OpEnv, s: State, target: Target, parent: seq<Name>, cache: Option<Cache>)
    requires e.opens == map[] && CacheInv(job, s) && !HandleDoomed(job, s)
    requires target.id in job.catalog.targets && job.catalog.targets[target.id] == target
    ensures ParentDir(job, e, s.tree, s.cache, true, target, parent)
      == ParentDir(job, e, s.tree, cache, false, target, parent)
  {
    if CacheHit(s.cache, target.id, parent) {
      assert CacheValid(job, s.tree, s.cache.value);
      assert ResolveDir(s.tree, job.roots, target.base, parent, map[]) == Ok(s.cache.value.dir);
    }
  }

  lemma OpenIgnoresCache(job: Job, env: seq<OpEnv>, tree0: Tree, s: State, cache: Option<Cache>)
    requires WellFormed(job, env, s) && CatalogOk(job.catalog)
    requires s.phase.MarkedMutating? && env[s.i].opens == map[]
    requires CacheInv(job, s)
    ensures
      var op, d := job.plan.operations[s.i], Del(job, s.i);
      StepOpen(job, env[s.i], s, op, d, true).(cache := None)
        == StepOpen(job, env[s.i], s.(cache := cache), op, d, false).(cache := None)
  {
    hide ParentDir, Components, CacheInv;
    var d := Del(job, s.i);
    var path := Components(d.relPath);
    if HasLeaf(path) {
      ParentIgnoresCache(job, env[s.i], s, job.catalog.targets[d.target], path[..|path| - 1], cache);
    }
  }

  lemma GateIgnoresCache(job: Job, e: OpEnv, s: State, op: Operation, cache: Option<Cache>)
    ensures StepGate(job, e, s, op).(cache := None) == StepGate(job, e, s.(cache := cache), op).(cache := None)
  {
    hide Decide, CommitIntent, IntentFor;
  }

  lemma MarkIgnoresCache(job: Job, env: seq<OpEnv>, s: State, f: State)
    requires WellFormed(job, env, s) && WellFormed(job, env, f) && f == s.(cache := f.cache) && s.phase.IntentStored?
    ensures Step(job, env, s, true).(cache := None) == Step(job, env, f, false).(cache := None)
  {
    hide SetIntentState, StepOpen, StepGate;
  }

  lemma MutationIgnoresCache(job: Job, env: seq<OpEnv>, s: State, f: State)
    requires WellFormed(job, env, s) && WellFormed(job, env, f) && f == s.(cache := f.cache) && s.phase.ParentOpen?
    ensures Step(job, env, s, true).(cache := None) == Step(job, env, f, false).(cache := None)
  {
    hide Mutate, StepOpen, StepGate;
  }

  lemma VerdictIgnoresCache(job: Job, env: seq<OpEnv>, s: State, f: State)
    requires WellFormed(job, env, s) && WellFormed(job, env, f) && f == s.(cache := f.cache) && s.phase.Mutated?
    ensures Step(job, env, s, true).(cache := None) == Step(job, env, f, false).(cache := None)
  {
    hide Judge, VerifyAtParent, SetIntentState, StepOpen, StepGate;
  }

  lemma RecordIgnoresCache(job: Job, env: seq<OpEnv>, s: State, f: State)
    requires WellFormed(job, env, s) && WellFormed(job, env, f) && f == s.(cache := f.cache) && s.phase.Resolved?
    ensures Step(job, env, s, true).(cache := None) == Step(job, env, f, false).(cache := None)
  {
    hide RecordResult, StepOpen, StepGate;
  }

  lemma StepIgnoresCache(job: Job, env: seq<OpEnv>, tree0: Tree, s: State, f: State)
    requires WellFormed(job, env, s) && WellFormed(job, env, f) && CatalogOk(job.catalog)
    requires forall k :: 0 <= k < |env| ==> env[k].opens == map[]
    requires CacheInv(job, s)
    requires s.(cache := None) == f.(cache := None)
    ensures Step(job, env, s, true).(cache := None) == Step(job, env, f, false).(cache := None)
  {
    hide StepOpen, StepGate, Mutate, Judge, VerifyAtParent, SetIntentState, RecordResult;
    assert f == s.(cache := f.cache);
    match s.phase
    case AtOp =>
      if s.i < |job.plan.operations| {
        GateIgnoresCache(job, env[s.i], s, job.plan.operations[s.i], f.cache);
      }
    case MarkedMutating => OpenIgnoresCache(job, env, tree0, s, f.cache);
    case IntentStored => MarkIgnoresCache(job, env, s, f);
    case ParentOpen(_, _) => MutationIgnoresCache(job, env, s, f);
    case Mutated(_, _, _) => VerdictIgnoresCache(job, env, s, f);
    case Resolved(_) => RecordIgnoresCache(job, env, s, f);
    case _ =>
  }

  /**
   On a disk whose opens do not fault, running with the remembered parent handle and re-walking from
   the target root for every operation go through the same states: same disk, tables, results and counters.
   */
  lemma {:induction false} CachedHandleIsTransparent(job: Job, env: seq<OpEnv>, tree0: Tree, db0: Tables, n: nat)
    requires |env| == |job.plan.operations| && CatalogOk(job.catalog)
    requires forall k :: 0 <= k < |env| ==> env[k].opens == map[]
    ensures Run(job, env, Init(tree0, db0), true, n).(cache := None)
         == Run(job, env, Init(tree0, db0), false, n).(cache := None)
    decreases n
  {
    hide Step;
    if n > 0 {
      CachedHandleIsTransparent(job, env, tree0, db0, n - 1);
      DiskInvAlways(job, env, tree0, db0, true, n - 1);
      var s := Run(job, env, Init(tree0, db0), true, n - 1);
      var f := Run(job, env, Init(tree0, db0), false, n - 1);
      StepIgnoresCache(job, env, tree0, s, f);
    }
  }
}
