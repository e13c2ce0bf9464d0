/**
 Which operations the executor admits and what it answers to the others, in terms of its inputs alone: the plan,
 the grant, the catalog, the environment of each operation and the results before it.
 */
module Admission {
  import opened Domain
  import opened Paths
  import opened Filesystem
  import opened Verification
  import opened Durability
  import opened Authorization
  import opened Execution
  import opened CrashSafety
  import opened Ordering

  // ------------------------------------------------------------------ Vocabulary

  /** An operation before `k` with this identifier has succeeded. */
  ghost predicate SucceededBefore(job: Job, results: seq<OpResult>, k: nat, id: nat) {
    exists j: nat ::
      j < k && j < |results| && j < |job.plan.operations| && results[j].status == Success
      && job.plan.operations[j].id == id
  }

  ghost predicate Fulfilled(job: Job, results: seq<OpResult>, k: nat)
    requires k < |job.plan.operations|
  {
    forall d :: d in job.plan.operations[k].deps ==> SucceededBefore(job, results, k, d)
  }

  /** Neither cancelled nor locked out, with all dependencies fulfilled, granted and inside the boundary. */
  ghost predicate Admitted(job: Job, env: seq<OpEnv>, results: seq<OpResult>, k: nat)
    requires |env| == |job.plan.operations|
  {
    && k < |env| && !env[k].cancelled && !env[k].lockBusy && Fulfilled(job, results, k) && Permitted(job, k)
  }

  /** The operation is one that the executor leaves to others, and it was granted. */
  ghost predicate NotForUs(job: Job, k: nat)
    requires k < |job.plan.operations|
  {
    Granted(job.grant, job.plan.operations[k].op) && !IsDeletionOp(job, k)
  }

  /** What the result of operation `k` may be. */
  ghost predicate ResultFits(job: Job, env: seq<OpEnv>, results: seq<OpResult>, k: nat)
    requires |env| == |job.plan.operations| && k < |results| <= |env|
  {
    var r, e := results[k], env[k];
    && r.id == job.plan.operations[k].id
    && (r.status == Preempted <==> e.cancelled)
    && (r.status == Skipped <==> !e.cancelled && (!Fulfilled(job, results, k) || NotForUs(job, k)))
    && (!Admitted(job, env, results, k) ==> r.reclaimed == 0 && r.status in {Preempted, Skipped, Failed})
    && (r.status == Success ==> e.verify.None?)
    && (r.status == VerificationFailed ==> e.verify.Some?)
  }

  ghost predicate Underway(phase: Phase) {
    InFlight(phase) || phase.Aborted?
  }

  ghost predicate AdmissionInv(job: Job, env: seq<OpEnv>, s: State)
    requires |env| == |job.plan.operations|
  {
    && ResultsInv(job, s)
    && (forall id :: id in s.succeeded <==> SucceededBefore(job, s.results, |s.results|, id))
    && (Underway(s.phase) ==> Admitted(job, env, s.results, s.i))
    && (s.phase.Resolved? ==> s.i < |s.results| && s.results[s.i] == s.phase.result)
    && (s.phase.Mutated? && s.phase.ok ==> ValidComponent(s.phase.leaf) && Edge(s.phase.dir, s.phase.leaf) !in s.tree)
    && forall k :: 0 <= k < |s.results| ==> ResultFits(job, env, s.results, k)
  }

  // ------------------------------------------------------------------ Earlier results stay

  lemma LaterResults(job: Job, a: seq<OpResult>, b: seq<OpResult>, k: nat)
    requires a <= b && k <= |a| && k < |job.plan.operations|
    ensures Fulfilled(job, a, k) <==> Fulfilled(job, b, k)
  {
    forall d ensures SucceededBefore(job, a, k, d) <==> SucceededBefore(job, b, k, d) {
    }
  }

  lemma FitStays(job: Job, env: seq<OpEnv>, a: seq<OpResult>, b: seq<OpResult>, k: nat)
    requires |env| == |job.plan.operations| && a <= b && |b| <= |env| && k < |a| && ResultFits(job, env, a, k)
    ensures ResultFits(job, env, b, k)
  {
    hide Fulfilled, Permitted;
    LaterResults(job, a, b, k);
  }

  lemma SuccessesGrow(job: Job, a: seq<OpResult>, r: OpResult, id: nat)
    requires |a| < |job.plan.operations| && r.id == job.plan.operations[|a|].id
    ensures SucceededBefore(job, a + [r], |a| + 1, id)
      <==> SucceededBefore(job, a, |a|, id) || (r.status == Success && r.id == id)
  {
    var b := a + [r];
    if j: nat :| j < |a| && a[j].status == Success && job.plan.operations[j].id == id {
      assert b[j].status == Success;
    }
    if r.status == Success && r.id == id {
      assert b[|a|].status == Success;
    }
  }

  // ------------------------------------------------------------------ The gates

  /** Every way out of the gates, by what is wrong with the operation. */
  lemma GateExactly(job: Job, env: seq<OpEnv>, s: State, cached: bool)
    requires WellFormed(job, env, s) && s.phase.AtOp? && s.i < |job.plan.operations|
    ensures
      var op, e, s' := job.plan.operations[s.i], env[s.i], Step(job, env, s, cached);
      var waits := exists d :: d in op.deps && d !in s.succeeded;
      if e.cancelled then s' == Finish(s, op, Preempted)
      else if waits || NotForUs(job, s.i) then s' == Finish(s, op, Skipped)
      else if e.lockBusy || !Permitted(job, s.i) then s' == Finish(s, op, Failed)
      else
        || (s'.phase == IntentStored && s'.i == s.i && Quiet(s, s') && s'.tree == s.tree)
        || s' == Finish(s, op, Failed)
  {
    hide Granted, AtBoundary, CommitIntent, IntentFor, Tally;
  }

  /**
   The parent directory is the remembered one of the same target and path, or the one that a walk from the root
   finds; without it, or without a last name to look up, the operation fails.
   */
  lemma OpenExactly(job: Job, env: seq<OpEnv>, s: State, cached: bool)
    requires WellFormed(job, env, s) && s.phase.MarkedMutating?
    ensures
      var s', d := Step(job, env, s, cached), Del(job, s.i);
      var path, target := Components(d.relPath), job.catalog.targets[d.target];
      if path == [] || path[|path| - 1] == ".." then s' == Finish(s, job.plan.operations[s.i], Failed)
      else
        var parent := path[..|path| - 1];
        var known := cached && s.cache.Some? && s.cache.value.target == target.id && s.cache.value.parent == parent;
        var found := if known then Ok(s.cache.value.dir)
          else ResolveDir(s.tree, job.roots, target.base, parent, env[s.i].opens);
        if found.Err? then s' == Finish(s, job.plan.operations[s.i], Failed)
        else
          && s'.phase == ParentOpen(found.value, path[|path| - 1]) && s'.i == s.i && Quiet(s, s')
          && s'.cache == Some(Cache(target.id, parent, found.value))
  {
    hide Components, Tally, ResolveDir;
  }

  /** What the last look at the disk says: seen and gone, seen and there, or not seen. */
  ghost predicate Seen(e: OpEnv, leaf: Name) {
    ValidComponent(leaf) && e.verify.None?
  }

  ghost predicate SeenGone(e: OpEnv, tree: Tree, dir: Identity, leaf: Name) {
    Seen(e, leaf) && Edge(dir, leaf) !in tree
  }

  /** The bytes that an operation promises: the size of a file, nothing for a directory. */
  function PromisedBytes(op: OpType): nat {
    if op.DeleteFile? then op.size else 0
  }

  ghost predicate ResolvedAs(job: Job, e: OpEnv, s: State, r: OpResult, state: IntentState)
    requires s.phase.Mutated? && s.i < |job.plan.operations|
  {
    var op, gone := job.plan.operations[s.i], SeenGone(e, s.tree, s.phase.dir, s.phase.leaf);
    && r.id == op.id
    && (r.status == Success <==> gone)
    && (r.status == VerificationFailed <==> !gone && s.phase.ok)
    && (r.status == Failed <==> !gone && !s.phase.ok)
    && r.reclaimed == (if gone && s.phase.ok then PromisedBytes(op.op) else 0)
    && (state == VerifiedSuccess <==> gone)
    && (state == VerifiedFailed <==> Seen(e, s.phase.leaf) && !gone)
    && (state == ResolvedUnknown <==> !Seen(e, s.phase.leaf))
  }

  /** The end of a mutation: the result and the state of the intent, by what the last look at the disk says. */
  lemma ResolutionExactly(job: Job, env: seq<OpEnv>, s: State, cached: bool)
    requires WellFormed(job, env, s) && s.phase.Mutated?
    ensures
      var s', e, id := Step(job, env, s, cached), env[s.i], job.plan.operations[s.i].id;
      if e.resolveFault then s' == s.(phase := Aborted)
      else
        && s'.phase.Resolved? && s'.i == s.i && s'.tree == s.tree && Books(s, s', s'.phase.result)
        && s'.cache == (if job.plan.operations[s.i].op.DeleteFile? then s.cache else None)
        && exists state ::
          ResolvedAs(job, e, s, s'.phase.result, state) && s'.db == SetIntentState(s.db, job.attempt, id, state)
  {
    hide SetIntentState;
    var e, d := env[s.i], Del(job, s.i);
    var Mutated(dir, leaf, ok) := s.phase;
    var v := VerifyAtParent(s.tree, dir, leaf, d.expected, e.verify);
    HandleVerdictsExactly(s.tree, dir, leaf, d.expected, e.verify);
    var (state, status, credit) := Judge(ok, v, d.bytes);
    var r := OpResult(job.plan.operations[s.i].id, status, credit);
    assert ResolvedAs(job, e, s, r, state);
  }

  // ------------------------------------------------------------------ The invariant

  /** One more result, which fits, keeps everything that was known about the results. */
  lemma OneMoreResult(job: Job, env: seq<OpEnv>, s: State, s': State, r: OpResult)
    requires |env| == |job.plan.operations| && AdmissionInv(job, env, s) && |s.results| < |env|
    requires ResultsInv(job, s') && Books(s, s', r) && ResultFits(job, env, s'.results, |s.results|)
    ensures forall id :: id in s'.succeeded <==> SucceededBefore(job, s'.results, |s'.results|, id)
    ensures forall k :: 0 <= k < |s'.results| ==> ResultFits(job, env, s'.results, k)
  {
    hide ResultFits, SucceededBefore, Permitted, SucceededAs;
    assert s'.results == s.results + [r];
    assert r.id == job.plan.operations[|s.results|].id;
    forall id ensures id in s'.succeeded <==> SucceededBefore(job, s'.results, |s'.results|, id) {
      SuccessesGrow(job, s.results, r, id);
    }
    forall k | 0 <= k < |s.results| ensures ResultFits(job, env, s'.results, k) {
      FitStays(job, env, s.results, s'.results, k);
    }
  }

  lemma GateKeepsInv(job: Job, env: seq<OpEnv>, s: State, cached: bool)
    requires WellFormed(job, env, s) && AdmissionInv(job, env, s) && s.phase.AtOp? && s.i < |job.plan.operations|
    ensures AdmissionInv(job, env, Step(job, env, s, cached))
  {
    hide Step, Permitted, SucceededBefore, NotForUs, SucceededAs;
    var s', op := Step(job, env, s, cached), job.plan.operations[s.i];
    StepKeepsResultsInv(job, env, s, cached);
    GateExactly(job, env, s, cached);
    if !s'.phase.IntentStored? {
      var r := s'.results[s.i];
      LaterResults(job, s.results, s'.results, s.i);
      assert ResultFits(job, env, s'.results, s.i);
      OneMoreResult(job, env, s, s', r);
    }
  }

  lemma OpenKeepsInv(job: Job, env: seq<OpEnv>, s: State, cached: bool)
    requires WellFormed(job, env, s) && AdmissionInv(job, env, s) && s.phase.MarkedMutating?
    ensures AdmissionInv(job, env, Step(job, env, s, cached))
  {
    hide Step, Permitted, SucceededBefore, SucceededAs;
    var s' := Step(job, env, s, cached);
    StepKeepsResultsInv(job, env, s, cached);
    OpenExactly(job, env, s, cached);
    if s'.phase.AtOp? {
      LaterResults(job, s.results, s'.results, s.i);
      AdmittedIsOurs(job, s.i);
      assert ResultFits(job, env, s'.results, s.i);
      OneMoreResult(job, env, s, s', s'.results[s.i]);
    }
  }

  lemma AdmittedIsOurs(job: Job, k: nat)
    requires k < |job.plan.operations| && Permitted(job, k)
    ensures !NotForUs(job, k)
  {
  }

  lemma ResolveKeepsInv(job: Job, env: seq<OpEnv>, s: State, cached: bool)
    requires WellFormed(job, env, s) && AdmissionInv(job, env, s) && s.phase.Mutated?
    ensures AdmissionInv(job, env, Step(job, env, s, cached))
  {
    hide Step, Permitted, SucceededBefore, SucceededAs;
    var s' := Step(job, env, s, cached);
    StepKeepsResultsInv(job, env, s, cached);
    ResolutionExactly(job, env, s, cached);
    if s'.phase.Resolved? {
      LaterResults(job, s.results, s'.results, s.i);
      AdmittedIsOurs(job, s.i);
      assert ResultFits(job, env, s'.results, s.i);
      OneMoreResult(job, env, s, s', s'.phase.result);
    }
  }

  lemma StepKeepsAdmissionInv(job: Job, env: seq<OpEnv>, s: State, cached: bool)
    requires WellFormed(job, env, s) && AdmissionInv(job, env, s)
    ensures AdmissionInv(job, env, Step(job, env, s, cached))
  {
    hide Step, Permitted, SucceededBefore, SucceededAs, ResultFits, Fulfilled;
    var s' := Step(job, env, s, cached);
    if s.phase.AtOp? && s.i < |job.plan.operations| {
      GateKeepsInv(job, env, s, cached);
    } else if s.phase.MarkedMutating? {
      OpenKeepsInv(job, env, s, cached);
    } else if s.phase.Mutated? {
      ResolveKeepsInv(job, env, s, cached);
    } else {
      StepKeepsResultsInv(job, env, s, cached);
      StepMoves(job, env, s, cached);
      if s.phase.ParentOpen? {
        StepTouchesDisk(job, env, s, cached);
        MutationEffect(s.tree, Del(job, s.i), s.phase.dir, s.phase.leaf, env[s.i].mutation);
      }
    }
  }

  lemma {:induction false} AdmissionInvAlways(
    job: Job, env: seq<OpEnv>, tree0: Tree, db0: Tables, cached: bool, n: nat)
    requires |env| == |job.plan.operations|
    ensures AdmissionInv(job, env, Run(job, env, Init(tree0, db0), cached, n))
    decreases n
  {
    hide Step, AdmissionInv;
    if n == 0 {
      StartsAdmitted(job, env, tree0, db0);
    } else {
      AdmissionInvAlways(job, env, tree0, db0, cached, n - 1);
      StepKeepsAdmissionInv(job, env, Run(job, env, Init(tree0, db0), cached, n - 1), cached);
    }
  }

  lemma StartsAdmitted(job: Job, env: seq<OpEnv>, tree0: Tree, db0: Tables)
    requires |env| == |job.plan.operations|
    ensures AdmissionInv(job, env, Init(tree0, db0))
  {
  }

  // ------------------------------------------------------------------ Main results

  /** At every step, an operation under way is neither cancelled nor locked out and passed every other gate. */
  lemma OnlyAdmittedRun(job: Job, env: seq<OpEnv>, tree0: Tree, db0: Tables, cached: bool, n: nat)
    requires |env| == |job.plan.operations|
    ensures
      var s := Run(job, env, Init(tree0, db0), cached, n);
      Underway(s.phase) ==> Admitted(job, env, s.results, s.i)
  {
    hide AdmissionInv, Run;
    AdmissionInvAlways(job, env, tree0, db0, cached, n);
    UnderwayIsAdmitted(job, env, Run(job, env, Init(tree0, db0), cached, n));
  }

  lemma UnderwayIsAdmitted(job: Job, env: seq<OpEnv>, s: State)
    requires |env| == |job.plan.operations| && AdmissionInv(job, env, s)
    ensures Underway(s.phase) ==> Admitted(job, env, s.results, s.i)
    ensures |s.results| <= |env| && forall k :: 0 <= k < |s.results| ==> ResultFits(job, env, s.results, k)
  {
  }

  /**
   At every step, the result of every operation that was not admitted: preempted if cancelled, else skipped if
   a dependency has not succeeded or the executor leaves it to others, else failed; and nothing reclaimed.
   */
  lemma RefusalsExactly(job: Job, env: seq<OpEnv>, tree0: Tree, db0: Tables, cached: bool, n: nat, k: nat)
    requires |env| == |job.plan.operations|
    requires k < |Run(job, env, Init(tree0, db0), cached, n).results|
    ensures
      var results := Run(job, env, Init(tree0, db0), cached, n).results;
      && k < |env| && results[k].id == job.plan.operations[k].id
      && var id, e := results[k].id, env[k];
        && (e.cancelled ==> results[k] == OpResult(id, Preempted, 0))
        && (!e.cancelled && !Fulfilled(job, results, k) ==> results[k] == OpResult(id, Skipped, 0))
        && (!e.cancelled && NotForUs(job, k) ==> results[k] == OpResult(id, Skipped, 0))
        && (!e.cancelled && Fulfilled(job, results, k) && !NotForUs(job, k) && (e.lockBusy || !Permitted(job, k)) ==>
          results[k] == OpResult(id, Failed, 0))
        && (Admitted(job, env, results, k) ==> results[k].status in {Success, Failed, VerificationFailed})
  {
    hide AdmissionInv, Run, Fulfilled, Permitted, NotForUs;
    var s := Run(job, env, Init(tree0, db0), cached, n);
    AdmissionInvAlways(job, env, tree0, db0, cached, n);
    UnderwayIsAdmitted(job, env, s);
    assert ResultFits(job, env, s.results, k);
    if Permitted(job, k) {
      AdmittedIsOurs(job, k);
    }
  }

  ghost predicate RemovedBy(job: Job, env: seq<OpEnv>, tree0: Tree, s: State, k: nat, edge: Edge)
    requires |env| == |job.plan.operations|
  {
    k <= |s.results| && Explained(job, tree0, s.db.intents, k, edge) && Admitted(job, env, s.results, k)
  }

  ghost predicate AllRemovedBy(job: Job, env: seq<OpEnv>, tree0: Tree, s: State)
    requires |env| == |job.plan.operations|
  {
    forall edge :: Removed(tree0, s.tree, edge) ==> exists k: nat :: RemovedBy(job, env, tree0, s, k, edge)
  }

  lemma RemovedByStays(
    job: Job, env: seq<OpEnv>, tree0: Tree, s: State, s': State, k: nat, edge: Edge)
    requires |env| == |job.plan.operations| && RemovedBy(job, env, tree0, s, k, edge)
    requires s.results <= s'.results && RowsEvolve(s.db.intents, s'.db.intents)
    ensures RemovedBy(job, env, tree0, s', k, edge)
  {
    hide Permitted, Fulfilled, Journaled, AtPath;
    LaterResults(job, s.results, s'.results, k);
    JournaledPersists(job, s.db.intents, s'.db.intents, k);
  }

  lemma StepKeepsRemovedBy(job: Job, env: seq<OpEnv>, tree0: Tree, s: State, cached: bool)
    requires WellFormed(job, env, s) && AllRemovedBy(job, env, tree0, s)
    requires DiskInv(job, tree0, s) && JournalInv(job, tree0, s) && AdmissionInv(job, env, s)
    ensures AllRemovedBy(job, env, tree0, Step(job, env, s, cached))
  {
    hide Step, DiskInv, Explained, Admitted, AdmissionInv;
    var s' := Step(job, env, s, cached);
    assert s.results <= s'.results && |s.results| >= s.i by { ResultsGrow(job, env, s, cached); }
    StepRowsEvolve(job, env, s, cached);
    forall edge | Removed(tree0, s'.tree, edge) ensures exists k: nat :: RemovedBy(job, env, tree0, s', k, edge) {
      if edge in s.tree {
        NewlyRemoved(job, env, tree0, s, cached, edge);
        RemovedByStays(job, env, tree0, s, s', s.i, edge);
      } else {
        assert Removed(tree0, s.tree, edge);
        var k: nat :| RemovedBy(job, env, tree0, s, k, edge);
        RemovedByStays(job, env, tree0, s, s', k, edge);
      }
    }
  }

  lemma ResultsGrow(job: Job, env: seq<OpEnv>, s: State, cached: bool)
    requires WellFormed(job, env, s) && AdmissionInv(job, env, s)
    ensures s.results <= Step(job, env, s, cached).results && |s.results| >= s.i
  {
    hide Step, ResultFits, SucceededBefore;
    StepKeepsResultsInv(job, env, s, cached);
  }

  lemma NewlyRemoved(job: Job, env: seq<OpEnv>, tree0: Tree, s: State, cached: bool, edge: Edge)
    requires WellFormed(job, env, s) && DiskInv(job, tree0, s) && JournalInv(job, tree0, s) && AdmissionInv(job, env, s)
    requires edge in s.tree && edge !in Step(job, env, s, cached).tree
    ensures RemovedBy(job, env, tree0, s, s.i, edge)
  {
    hide Step, DiskInv, ResultFits, SucceededBefore, Journaled, AtPath;
    StepRemovesNamedEntry(job, env, tree0, s, cached, edge);
  }

  /**
   At every step of every run, every entry missing since the start is explained by an operation that was
   admitted: not cancelled, with its target not locked by another attempt, after all its dependencies.
   */
  lemma {:induction false} OnlyAdmittedDelete(
    job: Job, env: seq<OpEnv>, tree0: Tree, db0: Tables, cached: bool, n: nat)
    requires |env| == |job.plan.operations| && CatalogOk(job.catalog)
    ensures AllRemovedBy(job, env, tree0, Run(job, env, Init(tree0, db0), cached, n))
    decreases n
  {
    hide Step, DiskInv, JournalInv, AdmissionInv;
    if n > 0 {
      OnlyAdmittedDelete(job, env, tree0, db0, cached, n - 1);
      DiskInvAlways(job, env, tree0, db0, cached, n - 1);
      JournalInvAlways(job, env, tree0, db0, cached, n - 1);
      AdmissionInvAlways(job, env, tree0, db0, cached, n - 1);
      StepKeepsRemovedBy(job, env, tree0, Run(job, env, Init(tree0, db0), cached, n - 1), cached);
    }
  }

  // ------------------------------------------------------------------ The boundary

  /** The system directories, spelled out. */
  predicate IsSystemPath(base: seq<string>) {
    && |base| >= 2 && base[0] == "/"
    && (|| base[1] in {"system", "vendor", "product", "system_ext", "apex", "metadata", "boot", "etc"}
        || (|base| >= 3 && base[1] == "data" && base[2] in {"system", "misc", "bootchart"}))
  }

  lemma StartsWithTwo(base: seq<string>, a: string, b: string)
    ensures [a, b] <= base <==> |base| >= 2 && base[0] == a && base[1] == b
  {
  }

  lemma StartsWithThree(base: seq<string>, a: string, b: string, c: string)
    ensures [a, b, c] <= base <==> |base| >= 3 && base[0] == a && base[1] == b && base[2] == c
  {
  }

  /** A root is safe exactly if it is not the file system's root and no system directory contains it. */
  lemma SafeRootExactly(base: seq<string>)
    ensures SafeRoot(base) <==> base != [] && base != ["/"] && !IsSystemPath(base)
  {
    forall name ensures ["/", name] <= base <==> |base| >= 2 && base[0] == "/" && base[1] == name {
      StartsWithTwo(base, "/", name);
    }
    forall name
      ensures ["/", "data", name] <= base <==> |base| >= 3 && base[0] == "/" && base[1] == "data" && base[2] == name
    {
      StartsWithThree(base, "/", "data", name);
    }
    if IsSystemPath(base) {
      SystemPathIsProtected(base);
    }
  }

  lemma SystemPathIsProtected(base: seq<string>)
    requires IsSystemPath(base)
    ensures exists i :: 0 <= i < |PROTECTED| && PROTECTED[i] <= base
  {
    var i :=
      if base[1] == "system" then 0 else if base[1] == "vendor" then 1 else if base[1] == "product" then 2
      else if base[1] == "system_ext" then 3 else if base[1] == "apex" then 4
      else if base[1] == "metadata" then 8 else if base[1] == "boot" then 9 else if base[1] == "etc" then 10
      else if base[2] == "system" then 5 else if base[2] == "misc" then 6 else 7;
    assert PROTECTED[i] <= base;
  }

  /** What the last gate asks for. */
  lemma BoundaryExactly(target: Target, relPath: string, expected: Identity, catalogGen: nat)
    ensures AtBoundary(target, relPath, expected, catalogGen) <==>
      && target.tier in {StandardCache, RequiresColdApp} && |target.base| >= 1 && target.base != ["/"]
      && !IsSystemPath(target.base) && |relPath| > 0 && expected.dev == target.dev && target.catalogGen == catalogGen
  {
    hide SafeRoot, IsSystemPath;
    SafeRootExactly(target.base);
  }

  /** What the target of a removed entry is like, and where the entry lies. */
  ghost predicate LiesInOrdinaryTarget(job: Job, tree0: Tree, target: TargetId, edge: Edge) {
    && target in job.catalog.targets && edge in tree0
    && var t := job.catalog.targets[target];
      && t.tier in {StandardCache, RequiresColdApp} && t.catalogGen == job.catalog.generation
      && |t.base| >= 1 && t.base != ["/"] && !IsSystemPath(t.base)
      && tree0[edge].id.dev == t.dev
  }

  /**
   At every step, whatever was removed lay in a catalogued target of a tier that may be changed, of the current
   generation, outside every system directory, and on the device of the target's root.
   */
  lemma NothingProtectedIsRemoved(job: Job, env: seq<OpEnv>, tree0: Tree, db0: Tables, n: nat, edge: Edge)
    requires |env| == |job.plan.operations| && CatalogOk(job.catalog)
    requires Removed(tree0, Run(job, env, Init(tree0, db0), true, n).tree, edge)
    ensures exists target :: LiesInOrdinaryTarget(job, tree0, target, edge)
  {
    hide Run, SafeRoot, IsSystemPath, AtPath, Journaled;
    var s := Run(job, env, Init(tree0, db0), true, n);
    OnlyAdmittedDelete(job, env, tree0, db0, true, n);
    var k: nat :| RemovedBy(job, env, tree0, s, k, edge);
    var target := Del(job, k).target;
    SafeRootExactly(job.catalog.targets[target].base);
    assert LiesInOrdinaryTarget(job, tree0, target, edge);
  }
}
