/** The executor's loop over a plan, on a real disk object and a real store, proved against the step machine. */
module Executor {
  import opened Domain
  import opened Paths
  import opened Filesystem
  import opened Verification
  import opened Durability
  import opened Authorization
  import opened Execution

  datatype JobResult = JobResult(
    attempt: nat, reclaimed: nat, operations: nat, successful: nat, failed: nat, skipped: nat)

  /** One execution of a plan: the loop's variables. */
  class PlanRun {
    const job: Job
    const disk: Disk
    const store: SqliteStore
    var cache: Option<Cache>
    var succeeded: set<nat>
    var results: seq<OpResult>
    var total: nat
    var success: nat
    var failed: nat
    var skipped: nat

    constructor (job: Job, disk: Disk, store: SqliteStore)
      ensures this.job == job && this.disk == disk && this.store == store
      ensures At(0, AtOp) == Init(disk.tree, store.View())
    {
      this.job := job;
      this.disk := disk;
      this.store := store;
      cache := None;
      succeeded, results, total, success, failed, skipped := {}, [], 0, 0, 0, 0;
    }

    /** The machine state that the variables stand for when control is at phase `phase` of operation `i`. */
    ghost function At(i: nat, phase: Phase): State
      reads this, disk, store
    {
      State(disk.tree, store.View(), phase, i, cache, succeeded, results, total, success, failed, skipped)
    }

    /** Books a result in the counters. */
    method Book(r: OpResult)
      modifies this
      ensures forall i: nat, phase :: At(i, phase) == Tally(old(At(i, phase)), r)
    {
      results := results + [r];
      total := SaturatingAdd(total, r.reclaimed);
      match r.status {
        case Success =>
          success := success + 1;
          succeeded := succeeded + {r.id};
        case Failed => failed := failed + 1;
        case VerificationFailed => failed := failed + 1;
        case Skipped => skipped := skipped + 1;
        case Preempted => skipped := skipped + 1;
      }
    }

    /** The gates before an intent may be stored. */
    method Gate(e: OpEnv, op: Operation) returns (decision: Decision)
      ensures decision == Decide(job, e, succeeded, op)
    {
      if e.cancelled {
        return Refuse(Preempted);
      }
      var k := 0;
      while k < |op.deps|
        invariant 0 <= k <= |op.deps|
        invariant forall m :: 0 <= m < k ==> op.deps[m] in succeeded
      {
        if op.deps[k] !in succeeded {
          return Refuse(Skipped);
        }
        k := k + 1;
      }
      assert !exists d :: d in op.deps && d !in succeeded;
      if !Granted(job.grant, op.op) {
        return Refuse(Failed);
      }
      match DeletionOf(op.op) {
        case None => return Refuse(Skipped);
        case Some(d) =>
          if d.target !in job.catalog.targets || e.lockBusy
            || !AtBoundary(job.catalog.targets[d.target], d.relPath, d.expected, job.catalog.generation)
          {
            return Refuse(Failed);
          }
          return Proceed(d);
      }
    }

    /** Finds the parent directory: the remembered handle, or a walk that is then remembered. */
    method GetOrOpenParent(e: OpEnv, target: Target, path: seq<Name>) returns (r: Reply<Identity>)
      requires HasLeaf(path) && disk.roots == job.roots
      modifies this`cache
      ensures r == ParentDir(job, e, disk.tree, old(cache), true, target, path[..|path| - 1])
      ensures cache == if r.Ok? then Some(Cache(target.id, path[..|path| - 1], r.value)) else old(cache)
    {
      var parent := path[..|path| - 1];
      if CacheHit(cache, target.id, parent) {
        return Ok(cache.value.dir);
      }
      r := disk.OpenPath(target.base, parent, e.opens);
      if r.Ok? {
        cache := Some(Cache(target.id, parent, r.value));
      }
    }

    /** From an open parent handle: mutate, verify, resolve the intent, book and record. */
    method MutateAndVerify(env: seq<OpEnv>, i: nat, d: Deletion, dir: Identity, leaf: Name) returns (ok: bool)
      requires WellFormed(job, env, At(i, ParentOpen(dir, leaf)))
      requires Some(d) == DeletionOf(job.plan.operations[i].op)
      modifies this, disk, store
      ensures WellFormed(job, env, At(if ok then i + 1 else i, if ok then AtOp else Aborted))
      ensures Final(job, env, At(if ok then i + 1 else i, if ok then AtOp else Aborted), true)
           == old(Final(job, env, At(i, ParentOpen(dir, leaf)), true))
    {
      hide Final, Mutate, CommitIntent, SetIntentState, RecordResult, Decide;
      var op, e := job.plan.operations[i], env[i];
      ghost var s0 := At(i, ParentOpen(dir, leaf));
      ghost var s1 := Step(job, env, s0, true);
      FinalStep(job, env, s0);
      var mutated;
      if d.isDir {
        mutated := disk.RmdirChildDir(dir, leaf, d.expected, e.mutation);
      } else {
        mutated := disk.UnlinkChildFile(dir, leaf, d.expected, e.mutation);
      }
      assert (disk.tree, mutated) == Mutate(s0.tree, d, dir, leaf, e.mutation) by { MutateIs(s0.tree, d, dir, leaf,
        e.mutation); }
      assert At(i, Mutated(dir, leaf, mutated)) == s1;
      ok := VerifyAndResolve(env, i, d, dir, leaf, mutated);
    }

    /** From a finished mutation: verify, resolve the intent, book and record. */
    method VerifyAndResolve(env: seq<OpEnv>, i: nat, d: Deletion, dir: Identity, leaf: Name, mutated: bool)
      returns (ok: bool)
      requires WellFormed(job, env, At(i, Mutated(dir, leaf, mutated)))
      requires Some(d) == DeletionOf(job.plan.operations[i].op)
      modifies this, store
      ensures WellFormed(job, env, At(if ok then i + 1 else i, if ok then AtOp else Aborted))
      ensures Final(job, env, At(if ok then i + 1 else i, if ok then AtOp else Aborted), true)
           == old(Final(job, env, At(i, Mutated(dir, leaf, mutated)), true))
    {
      hide Final, CommitIntent, SetIntentState, RecordResult, Decide, VerifyAtParent, Judge, Mutate, ResultRow;
      var op, e := job.plan.operations[i], env[i];
      ghost var s1 := At(i, Mutated(dir, leaf, mutated));
      ghost var s2 := Step(job, env, s1, true);
      FinalStep(job, env, s1);
      var verdict := VerifyAtParent(disk.tree, dir, leaf, d.expected, e.verify);
      var (state, status, credit) := Judge(mutated, verdict, d.bytes);
      var updated := store.UpdateIntentState(job.attempt, op.id, state, e.resolveFault);
      if !updated {
        assert At(i, Aborted) == s2;
        return false;
      }
      if d.isDir {
        cache := None;
      }
      var r := OpResult(op.id, status, credit);
      Book(r);
      assert At(i, Resolved(r)) == s2;
      RecordOutcome(env, i, d, r);
      return true;
    }

    /** Records the outcome of a resolved operation; a failure to do so is only logged. */
    method RecordOutcome(env: seq<OpEnv>, i: nat, d: Deletion, r: OpResult)
      requires WellFormed(job, env, At(i, Resolved(r))) && Some(d) == DeletionOf(job.plan.operations[i].op)
      modifies store
      ensures WellFormed(job, env, At(i + 1, AtOp))
      ensures Final(job, env, At(i + 1, AtOp), true) == old(Final(job, env, At(i, Resolved(r)), true))
    {
      hide Final, RecordResult, ResultRow;
      ghost var s := At(i, Resolved(r));
      FinalStep(job, env, s);
      store.RecordOperationResult(job.plan.jobId, ResultRow(d, r), env[i].recordFault);
      assert At(i + 1, AtOp) == Step(job, env, s, true);
    }

    /** One turn of the loop; false when a store update failed and the whole execution stops with an error. */
    method RunOperation(env: seq<OpEnv>, i: nat) returns (ok: bool)
      requires i < |job.plan.operations| && WellFormed(job, env, At(i, AtOp)) && disk.roots == job.roots
      modifies this, disk, store
      ensures WellFormed(job, env, At(if ok then i + 1 else i, if ok then AtOp else Aborted))
      ensures Final(job, env, At(if ok then i + 1 else i, if ok then AtOp else Aborted), true)
           == old(Final(job, env, At(i, AtOp), true))
    {
      hide Final, CommitIntent, SetIntentState, Decide, ParentDir;
      hide Components, Mutate, Judge, VerifyAtParent, RecordResult;
      hide IntentFor;
      var op, e := job.plan.operations[i], env[i];
      ghost var s0 := At(i, AtOp);
      ghost var s1 := Step(job, env, s0, true);
      FinalStep(job, env, s0);
      var decision := Gate(e, op);
      if decision.Refuse? {
        Book(OpResult(op.id, decision.status, 0));
        assert At(i + 1, AtOp) == s1;
        return true;
      }
      var d := decision.deletion;
      assert Some(d) == DeletionOf(op.op) && d.target in job.catalog.targets by { ProceedIs(job, e, succeeded, op); }
      var stored := store.CommitOperationIntent(IntentFor(job, op, d), e.commitFault);
      if !stored {
        Book(OpResult(op.id, Failed, 0));
        assert At(i + 1, AtOp) == s1;
        return true;
      }
      assert At(i, IntentStored) == s1;

      ghost var s2 := Step(job, env, s1, true);
      FinalStep(job, env, s1);
      var marked := store.UpdateIntentState(job.attempt, op.id, Mutating, e.markFault);
      if !marked {
        assert At(i, Aborted) == s2;
        return false;
      }
      assert At(i, MarkedMutating) == s2;
      ok := OpenAndMutate(env, i, d);
    }

    /** From a marked intent on: resolve the parent directory, then mutate in it. */
    method OpenAndMutate(env: seq<OpEnv>, i: nat, d: Deletion) returns (ok: bool)
      requires WellFormed(job, env, At(i, MarkedMutating)) && disk.roots == job.roots
      requires Some(d) == DeletionOf(job.plan.operations[i].op)
      modifies this, disk, store
      ensures WellFormed(job, env, At(if ok then i + 1 else i, if ok then AtOp else Aborted))
      ensures Final(job, env, At(if ok then i + 1 else i, if ok then AtOp else Aborted), true)
           == old(Final(job, env, At(i, MarkedMutating), true))
    {
      hide Final, ParentDir, Components;
      var op, e := job.plan.operations[i], env[i];
      ghost var s0 := At(i, MarkedMutating);
      FinalStep(job, env, s0);
      var path := Components(d.relPath);
      if !HasLeaf(path) {
        Book(OpResult(op.id, Failed, 0));
        assert At(i + 1, AtOp) == Step(job, env, s0, true);
        return true;
      }
      var parent := GetOrOpenParent(e, job.catalog.targets[d.target], path);
      if parent.Err? {
        Book(OpResult(op.id, Failed, 0));
        assert At(i + 1, AtOp) == Step(job, env, s0, true);
        return true;
      }
      var leaf := path[|path| - 1];
      assert At(i, ParentOpen(parent.value, leaf)) == Step(job, env, s0, true);
      ok := MutateAndVerify(env, i, d, parent.value, leaf);
    }
  }

  lemma MutateIs(tree: Tree, d: Deletion, dir: Identity, leaf: Name, faults: MutationFaults)
    ensures Mutate(tree, d, dir, leaf, faults)
      == if d.isDir then Rmdired(tree, dir, leaf, d.expected, faults) else Unlinked(tree, dir, leaf, d.expected, faults)
  {
  }

  lemma ProceedIs(job: Job, e: OpEnv, succeeded: set<nat>, op: Operation)
    requires Decide(job, e, succeeded, op).Proceed?
    ensures Some(Decide(job, e, succeeded, op).deletion) == DeletionOf(op.op)
    ensures Decide(job, e, succeeded, op).deletion.target in job.catalog.targets
  {
  }

  /**
   Executes an authorized plan. Without authorization nothing is touched. Otherwise the disk, the
   tables and the figures end exactly in the machine's resting state, and an error is returned
   exactly when a store update failed on the way.
   */
  method ExecutePlan(job: Job, configGen: nat, now: nat, env: seq<OpEnv>, disk: Disk, store: SqliteStore)
    returns (r: Option<JobResult>)
    requires |env| == |job.plan.operations| && disk.roots == job.roots
    modifies disk, store
    ensures
      var current := job.plan.catalogGen == job.grant.catalogGen == job.catalog.generation
        && job.plan.configGen == job.grant.configGen == configGen && now <= job.grant.expiresAt;
      !current ==> r == None && disk.tree == old(disk.tree) && store.View() == old(store.View())
    ensures !IsAuthorized(job.plan, job.grant, now, job.catalog.generation, configGen) ==>
      r == None && disk.tree == old(disk.tree) && store.View() == old(store.View())
    ensures IsAuthorized(job.plan, job.grant, now, job.catalog.generation, configGen) ==>
      var f := Final(job, env, Init(old(disk.tree), old(store.View())), true);
      && disk.tree == f.tree && store.View() == f.db
      && r == if f.phase.Done?
        then Some(JobResult(job.attempt, f.total, |job.plan.operations|, f.success, f.failed, f.skipped)) else None
  {
    hide Step, IsAuthorized;
    AuthorizedMeans(job.plan, job.grant, now, job.catalog.generation, configGen);
    if !IsAuthorized(job.plan, job.grant, now, job.catalog.generation, configGen) {
      return None;
    }
    var run := new PlanRun(job, disk, store);
    ghost var f := Final(job, env, Init(old(disk.tree), old(store.View())), true);
    var i := 0;
    while i < |job.plan.operations|
      invariant 0 <= i <= |job.plan.operations|
      invariant run.job == job && run.disk == disk && run.store == store
      invariant WellFormed(job, env, run.At(i, AtOp))
      invariant Final(job, env, run.At(i, AtOp), true) == f
    {
      var ok := run.RunOperation(env, i);
      if !ok {
        return None;
      }
      i := i + 1;
    }
    assert f == run.At(i, Done) by { FinalAtEnd(job, env, run.At(i, AtOp)); }
    r := Some(JobResult(job.attempt, run.total, |job.plan.operations|, run.success, run.failed, run.skipped));
  }

  lemma AuthorizedMeans(plan: Plan, grant: Grant, now: nat, catalogGen: nat, configGen: nat)
    ensures IsAuthorized(plan, grant, now, catalogGen, configGen) <==>
      && plan.catalogGen == grant.catalogGen == catalogGen
      && plan.configGen == grant.configGen == configGen && now <= grant.expiresAt
  {
  }

  lemma FinalAtEnd(job: Job, env: seq<OpEnv>, s: State)
    requires WellFormed(job, env, s) && s.phase.AtOp? && s.i == |job.plan.operations|
    ensures Final(job, env, s, true) == s.(phase := Done)
  {
    assert Step(job, env, s, true) == s.(phase := Done);
  }
}
