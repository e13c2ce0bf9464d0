/** What plan validation really promises about cycles, and what becomes of an operation that waits for itself. */
module Acyclic {
  import opened Domain
  import opened Filesystem
  import opened Durability
  import opened Authorization
  import opened Execution
  import opened CrashSafety
  import opened Ordering
  import opened Planning

  /** Operation `i` waits for operation `j`. */
  ghost predicate WaitsFor(operations: seq<Operation>, i: nat, j: nat) {
    i < |operations| && j < |operations| && operations[j].id in operations[i].deps
  }

  /** A closed walk along the dependencies. */
  ghost predicate IsCycle(operations: seq<Operation>, walk: seq<nat>) {
    && |walk| >= 2 && walk[0] == walk[|walk| - 1]
    && forall k :: 0 <= k < |walk| - 1 ==> WaitsFor(operations, walk[k], walk[k + 1])
  }

  ghost predicate SelfDependent(op: Operation) {
    op.id in op.deps
  }

  /** In a valid plan whose operations do not wait for themselves every dependency comes strictly earlier. */
  lemma WaitsForEarlier(operations: seq<Operation>, i: nat, j: nat)
    requires ValidPlan(operations) && WaitsFor(operations, i, j) && !SelfDependent(operations[i])
    ensures j < i
  {
    assert DefinedUpTo(operations, i, operations[j].id);
  }

  lemma {:induction false} WalksDescend(operations: seq<Operation>, walk: seq<nat>)
    requires ValidPlan(operations) && |walk| >= 2
    requires forall op :: op in operations ==> !SelfDependent(op)
    requires forall k :: 0 <= k < |walk| - 1 ==> WaitsFor(operations, walk[k], walk[k + 1])
    ensures walk[|walk| - 1] < walk[0]
  {
    hide ValidPlan;
    var n := |walk| - 1;
    assert WaitsFor(operations, walk[n - 1], walk[n]);
    WaitsForEarlier(operations, walk[n - 1], walk[n]);
    if n > 1 {
      WalksDescend(operations, walk[..n]);
    }
  }

  /** A plan that the validator accepts has a cycle exactly when one of its operations waits for itself. */
  lemma AcyclicExactly(operations: seq<Operation>)
    requires ValidPlan(operations)
    ensures (exists walk :: IsCycle(operations, walk)) <==> exists op :: op in operations && SelfDependent(op)
    ensures (forall op :: op in operations ==> !SelfDependent(op)) <==>
      forall i, j: nat :: WaitsFor(operations, i, j) ==> j < i
  {
    if op :| op in operations && SelfDependent(op) {
      var i: nat :| i < |operations| && operations[i] == op;
      assert WaitsFor(operations, i, i);
      assert IsCycle(operations, [i, i]);
    } else {
      forall walk | IsCycle(operations, walk) ensures false {
        WalksDescend(operations, walk);
      }
      forall i, j: nat | WaitsFor(operations, i, j) ensures j < i {
        WaitsForEarlier(operations, i, j);
      }
    }
  }

  /** The validator accepts an operation that waits for itself. */
  lemma SelfDependencyIsAccepted()
    ensures
      var op := Operation(1, TrimFilesystem("/data"), [1], 0);
      ValidPlan([op]) && SelfDependent(op) && IsCycle([op], [0, 0])
  {
    var op := Operation(1, TrimFilesystem("/data"), [1], 0);
    assert [op][0].id == 1;
    assert DefinedUpTo([op], 0, 1);
    assert WaitsFor([op], 0, 0);
  }

  // ------------------------------------------------------------------ Such an operation never runs

  ghost predicate Passed(s: OpResult) {
    s.status == Skipped || s.status == Preempted
  }

  /** Operation `k` is not in flight, has no intent of this attempt, and if booked was only passed over. */
  ghost predicate NeverRuns(job: Job, s: State, k: nat)
    requires k < |job.plan.operations|
  {
    && !(InFlight(s.phase) && s.i == k)
    && !HasKey(s.db.intents, job.attempt, job.plan.operations[k].id)
    && (k < |s.results| ==> Passed(s.results[k]))
  }

  /** At its turn, the operation's own identifier is not among the successes. */
  lemma OwnIdIsMissing(job: Job, s: State, k: nat)
    requires ValidPlan(job.plan.operations) && ResultsInv(job, s) && k < |job.plan.operations|
    requires s.i == k && s.phase.AtOp?
    ensures job.plan.operations[k].id !in s.succeeded
  {
  }

  /** So the gate passes it over. */
  lemma TurnIsPassed(job: Job, env: seq<OpEnv>, s: State, k: nat)
    requires WellFormed(job, env, s) && ValidPlan(job.plan.operations) && ResultsInv(job, s)
    requires k < |job.plan.operations| && SelfDependent(job.plan.operations[k]) && s.i == k && s.phase.AtOp?
    ensures
      var s' := Step(job, env, s, true);
      && s'.phase.AtOp? && s'.i == k + 1 && s'.db == s.db
      && |s'.results| == |s.results| + 1 && Passed(s'.results[|s.results|])
  {
    hide ValidPlan, ResultsInv, Granted, AtBoundary, CommitIntent, IntentFor, DeletionOf;
    OwnIdIsMissing(job, s, k);
    var op := job.plan.operations[k];
    assert exists d :: d in op.deps && d !in s.succeeded by { assert op.id in op.deps; }
  }

  lemma OtherKeysStay(before: seq<Intent>, t: Tables, attempt: nat, op: nat, state: IntentState, key: nat)
    requires before == t.intents && !HasKey(before, attempt, key)
    ensures !HasKey(SetIntentState(t, attempt, op, state).intents, attempt, key)
  {
    var after := SetIntentState(t, attempt, op, state).intents;
    forall i | 0 <= i < |after| ensures !KeyIs(after[i], attempt, key) {
      assert !KeyIs(before[i], attempt, key);
    }
  }

  /** A step at another operation stores no intent under the key of operation `k`. */
  lemma OtherTurnsStoreNothing(job: Job, env: seq<OpEnv>, s: State, k: nat)
    requires WellFormed(job, env, s) && ValidPlan(job.plan.operations) && k < |job.plan.operations| && s.i != k
    requires !HasKey(s.db.intents, job.attempt, job.plan.operations[k].id)
    ensures !HasKey(Step(job, env, s, true).db.intents, job.attempt, job.plan.operations[k].id)
  {
    hide Step, SetIntentState;
    var s' := Step(job, env, s, true);
    var key := job.plan.operations[k].id;
    StepWrites(job, env, s, true);
    StepMoves(job, env, s, true);
    if s.i < |job.plan.operations| {
      var op := job.plan.operations[s.i].id;
      assert op != key;
      if s.phase.AtOp? && s'.phase.IntentStored? {
        forall i | 0 <= i < |s'.db.intents| ensures !KeyIs(s'.db.intents[i], job.attempt, key) {
          assert i < |s.db.intents| ==> !KeyIs(s.db.intents[i], job.attempt, key);
        }
      } else if s.phase.IntentStored? && s'.phase.MarkedMutating? {
        OtherKeysStay(s.db.intents, s.db, job.attempt, op, Mutating, key);
      } else if s.phase.Mutated? && s'.phase.Resolved? {
        var state :| s'.db == SetIntentState(s.db, job.attempt, op, state);
        OtherKeysStay(s.db.intents, s.db, job.attempt, op, state, key);
      }
    }
  }

  lemma StepKeepsNeverRuns(job: Job, env: seq<OpEnv>, s: State, k: nat)
    requires WellFormed(job, env, s) && ValidPlan(job.plan.operations) && ResultsInv(job, s)
    requires k < |job.plan.operations| && SelfDependent(job.plan.operations[k]) && NeverRuns(job, s, k)
    ensures NeverRuns(job, Step(job, env, s, true), k)
  {
    hide Step, ValidPlan, HasKey;
    var s' := Step(job, env, s, true);
    StepMoves(job, env, s, true);
    StepKeepsResultsInv(job, env, s, true);
    if s.i == k && s.phase.AtOp? {
      TurnIsPassed(job, env, s, k);
    } else if s.i == k {
      assert s' == s;
    } else {
      OtherTurnsStoreNothing(job, env, s, k);
    }
  }

  /**
   At every step of every run of a valid plan, an operation that waits for itself has no intent in the
   journal and is booked, if at all, as skipped or preempted, so that no removal can be on its account.
   */
  lemma {:induction false} SelfDependentNeverRuns(job: Job, env: seq<OpEnv>, tree0: Tree, db0: Tables, n: nat, k: nat)
    requires |env| == |job.plan.operations| && CatalogOk(job.catalog) && ValidPlan(job.plan.operations)
    requires k < |job.plan.operations| && SelfDependent(job.plan.operations[k])
    requires !HasKey(db0.intents, job.attempt, job.plan.operations[k].id)
    ensures NeverRuns(job, Run(job, env, Init(tree0, db0), true, n), k)
    decreases n
  {
    hide Step, ValidPlan, HasKey, DiskInv, RowInv, NeverRuns;
    if n == 0 {
      StartsIdle(job, tree0, db0, k);
    } else {
      SelfDependentNeverRuns(job, env, tree0, db0, n - 1, k);
      PrerequisitesAlways(job, env, tree0, db0, true, n - 1);
      StepKeepsNeverRuns(job, env, Run(job, env, Init(tree0, db0), true, n - 1), k);
    }
  }

  lemma StartsIdle(job: Job, tree0: Tree, db0: Tables, k: nat)
    requires k < |job.plan.operations| && !HasKey(db0.intents, job.attempt, job.plan.operations[k].id)
    ensures NeverRuns(job, Init(tree0, db0), k)
  {
  }
}
