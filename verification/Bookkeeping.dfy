/**
 What the store holds about one operation at every step of a run: exactly when there is an intent, what it says
 and in which state it is, and which outcome is recorded, all in terms of the operation and its result.
 */
module Bookkeeping {
  import opened Domain
  import opened Paths
  import opened Filesystem
  import opened Verification
  import opened Durability
  import opened Authorization
  import opened Execution
  import opened CrashSafety
  import opened Ordering
  import opened Admission
  import opened CrashRecovery

  // ------------------------------------------------------------------ Vocabulary

  /** The intent is the one to carry out operation `k` under this job, attempt, catalog and grant. */
  ghost predicate DescribesIntent(job: Job, k: nat, row: Intent)
    requires k < |job.plan.operations|
  {
    && row.jobId == job.plan.jobId && row.attempt == job.attempt && row.op == job.plan.operations[k].id
    && row.catalogGen == job.catalog.generation && row.configGen == job.grant.configGen
    && match job.plan.operations[k].op
      case DeleteFile(target, relPath, expected, size) =>
        && row.target == target && row.relPath == relPath && row.expected == expected
        && row.bytes == size && row.mutation == RemoveFile
      case DeleteDirEmpty(target, relPath, expected) =>
        && row.target == target && row.relPath == relPath && row.expected == expected
        && row.bytes == 0 && row.mutation == RemoveEmptyDir
      case _ => false
  }

  /** The recorded outcome is that of operation `k`, with this result. */
  ghost predicate DescribesOutcome(job: Job, k: nat, row: OperationRow, r: OpResult)
    requires k < |job.plan.operations|
  {
    && row.result == r
    && match job.plan.operations[k].op
      case DeleteFile(target, relPath, expected, size) =>
        row == OperationRow(target, RemoveFile, relPath, expected, size, r)
      case DeleteDirEmpty(target, relPath, expected) =>
        row == OperationRow(target, RemoveEmptyDir, relPath, expected, 0, r)
      case _ => false
  }

  /** The run has come past the gates of operation `k`. */
  ghost predicate Begun(s: State, k: nat) {
    k < s.i || (k == s.i && Underway(s.phase))
  }

  /** The state of the intent of an operation that has a result. */
  ghost predicate ClosedState(e: OpEnv, status: Status, state: IntentState) {
    match status
    case Success => state == VerifiedSuccess
    case VerificationFailed => state == ResolvedUnknown
    case Failed => state in {Mutating, VerifiedFailed, ResolvedUnknown} && (state == VerifiedFailed ==> e.verify.None?)
    case _ => false
  }

  ghost predicate StateFits(e: OpEnv, s: State, k: nat, state: IntentState) {
    if k < |s.results| then ClosedState(e, s.results[k].status, state)
    else match s.phase
      case IntentStored => state == Committed
      case MarkedMutating => state == Mutating
      case ParentOpen(_, _) => state == Mutating
      case Mutated(_, _, _) => state == Mutating
      case Aborted => state in {Committed, Mutating}
      case _ => false
  }

  /** Operation `k` has an identifier of its own, and its key is free to begin with. */
  ghost predicate OwnKey(job: Job, db0: Tables, k: nat) {
    && k < |job.plan.operations|
    && (forall j :: 0 <= j < |job.plan.operations| && j != k ==> job.plan.operations[j].id != job.plan.operations[k].id)
    && !HasKey(db0.intents, job.attempt, job.plan.operations[k].id)
    && job.plan.jobId in db0.jobs
  }

  ghost predicate IntentsFit(job: Job, env: seq<OpEnv>, s: State, k: nat)
    requires k < |env| == |job.plan.operations|
  {
    var id := job.plan.operations[k].id;
    && (HasKey(s.db.intents, job.attempt, id) <==>
      Begun(s, k) && Admitted(job, env, s.results, k) && !env[k].commitFault)
    && forall row :: row in s.db.intents && KeyIs(row, job.attempt, id) ==>
      DescribesIntent(job, k, row) && StateFits(env[k], s, k, row.state)
  }

  /** An outcome of operation `k` is recorded: always after a verified one, unless the statement failed. */
  ghost predicate OutcomeFits(job: Job, env: seq<OpEnv>, db0: Tables, s: State, k: nat)
    requires k < |env| == |job.plan.operations|
  {
    var key := (job.plan.jobId, job.plan.operations[k].id);
    && (key in s.db.operations ==>
      || (key in db0.operations && s.db.operations[key] == db0.operations[key])
      || (k < s.i && k < |s.results| && !env[k].recordFault && Admitted(job, env, s.results, k)
        && DescribesOutcome(job, k, s.db.operations[key], s.results[k])))
    && (k < s.i && k < |s.results| && s.results[k].status in {Success, VerificationFailed} && !env[k].recordFault ==>
      key in s.db.operations && DescribesOutcome(job, k, s.db.operations[key], s.results[k]))
    && (key in db0.operations ==> key in s.db.operations)
  }

  ghost predicate BookInv(job: Job, env: seq<OpEnv>, db0: Tables, s: State, k: nat)
    requires k < |env| == |job.plan.operations|
  {
    && s.db.jobs == db0.jobs
    && IntentsFit(job, env, s, k) && OutcomeFits(job, env, db0, s, k)
  }

  // ------------------------------------------------------------------ What a step does to the rows of one key

  /** The rows with this key are the same. */
  ghost predicate SameRows(a: seq<Intent>, b: seq<Intent>, attempt: nat, op: nat) {
    && (HasKey(a, attempt, op) <==> HasKey(b, attempt, op))
    && forall row :: KeyIs(row, attempt, op) ==> (row in a <==> row in b)
  }

  lemma UpdateSparesOthers(t: Tables, attempt: nat, op: nat, state: IntentState, other: nat)
    requires other != op
    ensures SameRows(t.intents, SetIntentState(t, attempt, op, state).intents, attempt, other)
  {
    var a, b := t.intents, SetIntentState(t, attempt, op, state).intents;
    forall i | 0 <= i < |a| ensures KeyIs(a[i], attempt, other) <==> KeyIs(b[i], attempt, other) {
    }
    forall i | 0 <= i < |a| && KeyIs(a[i], attempt, other) ensures b[i] == a[i] {
    }
    assert HasKey(b, attempt, other) ==> HasKey(a, attempt, other);
    if HasKey(a, attempt, other) {
      var i :| 0 <= i < |a| && KeyIs(a[i], attempt, other);
      assert KeyIs(b[i], attempt, other);
    }
  }

  lemma AppendSparesOthers(a: seq<Intent>, row: Intent, attempt: nat, other: nat)
    requires !KeyIs(row, attempt, other)
    ensures SameRows(a, a + [row], attempt, other)
  {
    if HasKey(a, attempt, other) {
      var i :| 0 <= i < |a| && KeyIs(a[i], attempt, other);
      assert (a + [row])[i] == a[i];
    }
  }

  /** Updating the key sets the state of its rows and changes nothing else about them. */
  lemma UpdateSetsOwn(t: Tables, attempt: nat, op: nat, state: IntentState)
    ensures
      var b := SetIntentState(t, attempt, op, state).intents;
      && (HasKey(b, attempt, op) <==> HasKey(t.intents, attempt, op))
      && forall row :: row in b && KeyIs(row, attempt, op) ==>
        WasThere(t.intents, attempt, op, row) && row.state == state
  {
    var a, b := t.intents, SetIntentState(t, attempt, op, state).intents;
    if HasKey(a, attempt, op) {
      var i :| 0 <= i < |a| && KeyIs(a[i], attempt, op);
      assert KeyIs(b[i], attempt, op);
    }
    if HasKey(b, attempt, op) {
      var i :| 0 <= i < |b| && KeyIs(b[i], attempt, op);
      assert KeyIs(a[i], attempt, op);
    }
    forall row | row in b && KeyIs(row, attempt, op)
      ensures WasThere(a, attempt, op, row) && row.state == state
    {
      var i :| 0 <= i < |b| && b[i] == row;
      assert a[i] in a && KeyIs(a[i], attempt, op) && row == a[i].(state := row.state);
    }
  }

  ghost predicate WasThere(rows: seq<Intent>, attempt: nat, op: nat, row: Intent) {
    exists old_ :: old_ in rows && KeyIs(old_, attempt, op) && row == old_.(state := row.state)
  }

  lemma OtherOperationsRows(job: Job, env: seq<OpEnv>, s: State, cached: bool, k: nat)
    requires WellFormed(job, env, s) && k < |job.plan.operations|
    requires s.i < |job.plan.operations| ==> job.plan.operations[s.i].id != job.plan.operations[k].id
    ensures SameRows(
      s.db.intents, Step(job, env, s, cached).db.intents, job.attempt, job.plan.operations[k].id)
  {
    hide Step, SetIntentState, SameRows;
    var s', id := Step(job, env, s, cached), job.plan.operations[k].id;
    StepWrites(job, env, s, cached);
    StepMoves(job, env, s, cached);
    AlwaysSame(s.db.intents, job.attempt, id);
    if s.i < |job.plan.operations| {
      var op := job.plan.operations[s.i];
      if s.phase.AtOp? && s'.phase.IntentStored? {
        AppendSparesOthers(s.db.intents, IntentFor(job, op, Del(job, s.i)), job.attempt, id);
      } else if s.phase.IntentStored? && s'.phase.MarkedMutating? {
        UpdateSparesOthers(s.db, job.attempt, op.id, Mutating, id);
      } else if s.phase.Mutated? && s'.phase.Resolved? {
        var state :| s'.db == SetIntentState(s.db, job.attempt, op.id, state);
        UpdateSparesOthers(s.db, job.attempt, op.id, state, id);
      }
    }
  }

  lemma AlwaysSame(a: seq<Intent>, attempt: nat, op: nat)
    ensures SameRows(a, a, attempt, op)
  {
  }

  // ------------------------------------------------------------------ What a step records

  /** Only the end of an operation records anything: its outcome under its key. */
  lemma StepRecords(job: Job, env: seq<OpEnv>, s: State, cached: bool)
    requires WellFormed(job, env, s)
    ensures
      var s' := Step(job, env, s, cached);
      if s.phase.Resolved? && !env[s.i].recordFault && job.plan.jobId in s.db.jobs then
        && s'.db.operations.Keys == s.db.operations.Keys + {(job.plan.jobId, s.phase.result.id)}
        && (forall key :: key in s.db.operations && key != (job.plan.jobId, s.phase.result.id) ==>
          s'.db.operations[key] == s.db.operations[key])
        && DescribesOutcome(job, s.i, s'.db.operations[(job.plan.jobId, s.phase.result.id)], s.phase.result)
      else s'.db.operations == s.db.operations
  {
    hide Mutate, VerifyAtParent, StepOpen, Judge, IntentFor, Decide;
    if s.phase.MarkedMutating? {
      OpenWrites(job, env[s.i], s, job.plan.operations[s.i], Del(job, s.i), cached);
    }
  }

  // ------------------------------------------------------------------ The invariant

  lemma AdmittedStays(job: Job, env: seq<OpEnv>, a: seq<OpResult>, b: seq<OpResult>, k: nat)
    requires |env| == |job.plan.operations| && a <= b && k <= |a|
    ensures Admitted(job, env, a, k) <==> Admitted(job, env, b, k)
  {
    hide Fulfilled, Permitted;
    if k < |env| {
      LaterResults(job, a, b, k);
    }
  }

  /** Another operation is at work, or none. */
  lemma OtherStepKeepsInv(job: Job, env: seq<OpEnv>, db0: Tables, s: State, cached: bool, k: nat)
    requires WellFormed(job, env, s) && OwnKey(job, db0, k) && AdmissionInv(job, env, s)
    requires BookInv(job, env, db0, s, k) && (s.i != k || Halted(s.phase))
    ensures BookInv(job, env, db0, Step(job, env, s, cached), k)
  {
    hide Step, Admitted, IntentsFit, OutcomeFits, ResultFits, SucceededBefore, SucceededAs;
    if Halted(s.phase) {
      StepMoves(job, env, s, cached);
    } else {
      OtherStepKeepsIntents(job, env, db0, s, cached, k);
      OtherStepKeepsOutcome(job, env, db0, s, cached, k);
      StepKeepsOtherTables(job, env, s, cached);
    }
  }

  lemma OtherStepKeepsIntents(job: Job, env: seq<OpEnv>, db0: Tables, s: State, cached: bool, k: nat)
    requires WellFormed(job, env, s) && OwnKey(job, db0, k) && AdmissionInv(job, env, s)
    requires IntentsFit(job, env, s, k) && s.i != k && !Halted(s.phase)
    ensures IntentsFit(job, env, Step(job, env, s, cached), k)
  {
    hide Step, Admitted, DescribesIntent, ClosedState, ResultFits, SucceededBefore, SucceededAs;
    var s', id := Step(job, env, s, cached), job.plan.operations[k].id;
    StepMoves(job, env, s, cached);
    StepKeepsResultsInv(job, env, s, cached);
    OtherOperationsRows(job, env, s, cached, k);
    if k < s.i {
      AdmittedStays(job, env, s.results, s'.results, k);
    } else {
      NoRowWithoutKey(s, job.attempt, id);
    }
  }

  lemma NoRowWithoutKey(s: State, attempt: nat, op: nat)
    requires !HasKey(s.db.intents, attempt, op)
    ensures forall row :: row in s.db.intents ==> !KeyIs(row, attempt, op)
  {
    forall row | row in s.db.intents ensures !KeyIs(row, attempt, op) {
      var i :| 0 <= i < |s.db.intents| && s.db.intents[i] == row;
    }
  }

  lemma OtherStepKeepsOutcome(job: Job, env: seq<OpEnv>, db0: Tables, s: State, cached: bool, k: nat)
    requires WellFormed(job, env, s) && OwnKey(job, db0, k) && AdmissionInv(job, env, s)
    requires OutcomeFits(job, env, db0, s, k) && s.i != k && !Halted(s.phase)
    ensures OutcomeFits(job, env, db0, Step(job, env, s, cached), k)
  {
    hide Step, Admitted, DescribesOutcome, ResultFits, SucceededBefore, SucceededAs;
    var s' := Step(job, env, s, cached);
    StepMoves(job, env, s, cached);
    StepKeepsResultsInv(job, env, s, cached);
    StepRecords(job, env, s, cached);
    if k < s.i {
      AdmittedStays(job, env, s.results, s'.results, k);
    }
  }

  /** The gates of operation `k` itself. */
  lemma GateKeepsBookInv(job: Job, env: seq<OpEnv>, db0: Tables, s: State, cached: bool, k: nat)
    requires WellFormed(job, env, s) && OwnKey(job, db0, k) && AdmissionInv(job, env, s)
    requires BookInv(job, env, db0, s, k) && s.i == k && s.phase.AtOp?
    ensures BookInv(job, env, db0, Step(job, env, s, cached), k)
  {
    hide Step, IntentsFit, OutcomeFits, AdmissionInv;
    StepKeepsOtherTables(job, env, s, cached);
    GateKeepsIntents(job, env, db0, s, cached, k);
    GateKeepsOutcome(job, env, db0, s, cached, k);
  }

  lemma GateKeepsIntents(job: Job, env: seq<OpEnv>, db0: Tables, s: State, cached: bool, k: nat)
    requires WellFormed(job, env, s) && OwnKey(job, db0, k) && AdmissionInv(job, env, s) && s.db.jobs == db0.jobs
    requires IntentsFit(job, env, s, k) && s.i == k && s.phase.AtOp?
    ensures IntentsFit(job, env, Step(job, env, s, cached), k)
  {
    hide Step, Admitted, SucceededBefore, SucceededAs, ResultFits;
    var s', id := Step(job, env, s, cached), job.plan.operations[k].id;
    StoredExactly(job, env, s, cached);
    StepKeepsResultsInv(job, env, s, cached);
    AdmittedStays(job, env, s.results, s'.results, k);
    NoRowWithoutKey(s, job.attempt, id);
    if s'.phase.IntentStored? {
      var row :| DescribesIntent(job, k, row) && row.state == Committed && s'.db.intents == s.db.intents + [row];
      assert KeyIs(s'.db.intents[|s.db.intents|], job.attempt, id);
    }
  }

  lemma GateKeepsOutcome(job: Job, env: seq<OpEnv>, db0: Tables, s: State, cached: bool, k: nat)
    requires WellFormed(job, env, s) && OwnKey(job, db0, k) && AdmissionInv(job, env, s)
    requires OutcomeFits(job, env, db0, s, k) && s.i == k && s.phase.AtOp? && s.db.jobs == db0.jobs
    requires IntentsFit(job, env, s, k)
    ensures OutcomeFits(job, env, db0, Step(job, env, s, cached), k)
  {
    hide Step, Admitted, SucceededBefore, SucceededAs, DescribesOutcome, DescribesIntent, StateFits, ResultFits;
    var s' := Step(job, env, s, cached);
    StoredExactly(job, env, s, cached);
    StepRecords(job, env, s, cached);
    StepKeepsResultsInv(job, env, s, cached);
    AdmittedStays(job, env, s.results, s'.results, k);
    GateKeepsInv(job, env, s, cached);
    if k < |s'.results| {
      RefusedOrNot(job, env, s'.results, k);
    }
  }

  lemma RefusedOrNot(job: Job, env: seq<OpEnv>, results: seq<OpResult>, k: nat)
    requires k < |results| <= |env| == |job.plan.operations| && ResultFits(job, env, results, k)
    ensures !Admitted(job, env, results, k) ==> results[k].status !in {Success, VerificationFailed}
  {
    hide Fulfilled, Permitted;
  }

  /** An intent is stored exactly for an admitted operation whose statement works, and describes the operation. */
  lemma StoredExactly(job: Job, env: seq<OpEnv>, s: State, cached: bool)
    requires WellFormed(job, env, s) && s.phase.AtOp? && s.i < |job.plan.operations| && AdmissionInv(job, env, s)
    requires job.plan.jobId in s.db.jobs && !HasKey(s.db.intents, job.attempt, job.plan.operations[s.i].id)
    ensures
      var s' := Step(job, env, s, cached);
      if Admitted(job, env, s.results, s.i) && !env[s.i].commitFault then
        && s'.phase.IntentStored? && s'.i == s.i && s'.results == s.results
        && exists row ::
          DescribesIntent(job, s.i, row) && row.state == Committed && s'.db.intents == s.db.intents + [row]
      else
        && s'.phase.AtOp? && s'.i == s.i + 1 && s'.db == s.db && |s'.results| == |s.results| + 1
        && (Admitted(job, env, s.results, s.i) ==> s'.results[s.i].status == Failed)
  {
    hide Granted, AtBoundary, HasKey, ResultFits, SucceededAs, Tally;
    var op := job.plan.operations[s.i];
    WaitsExactly(job, env, s);
    if Admitted(job, env, s.results, s.i) {
      var row := IntentFor(job, op, Del(job, s.i));
      assert DescribesIntent(job, s.i, row);
    }
    FinishBooks(s, op, Failed);
    FinishBooks(s, op, Skipped);
    FinishBooks(s, op, Preempted);
  }

  lemma FinishBooks(s: State, op: Operation, status: Status)
    ensures
      var s' := Finish(s, op, status);
      s'.phase.AtOp? && s'.i == s.i + 1 && s'.db == s.db && s'.results == s.results + [OpResult(op.id, status, 0)]
  {
  }

  lemma WaitsExactly(job: Job, env: seq<OpEnv>, s: State)
    requires |env| == |job.plan.operations| && AdmissionInv(job, env, s) && s.phase.AtOp? && s.i < |env|
    ensures Fulfilled(job, s.results, s.i) <==> !exists d :: d in job.plan.operations[s.i].deps && d !in s.succeeded
  {
    hide ResultFits, SucceededBefore, SucceededAs, Permitted;
  }

  /** Operation `k` between its gates and its result. */
  lemma MiddleKeepsBookInv(job: Job, env: seq<OpEnv>, db0: Tables, s: State, cached: bool, k: nat)
    requires WellFormed(job, env, s) && OwnKey(job, db0, k) && AdmissionInv(job, env, s)
    requires BookInv(job, env, db0, s, k) && s.i == k
    requires s.phase.IntentStored? || s.phase.MarkedMutating? || s.phase.ParentOpen?
    ensures BookInv(job, env, db0, Step(job, env, s, cached), k)
  {
    hide Step, IntentsFit, OutcomeFits, AdmissionInv;
    StepKeepsOtherTables(job, env, s, cached);
    MiddleKeepsIntents(job, env, db0, s, cached, k);
    MiddleKeepsOutcome(job, env, db0, s, cached, k);
  }

  lemma MiddleKeepsIntents(job: Job, env: seq<OpEnv>, db0: Tables, s: State, cached: bool, k: nat)
    requires WellFormed(job, env, s) && OwnKey(job, db0, k) && AdmissionInv(job, env, s)
    requires IntentsFit(job, env, s, k) && s.i == k
    requires s.phase.IntentStored? || s.phase.MarkedMutating? || s.phase.ParentOpen?
    ensures IntentsFit(job, env, Step(job, env, s, cached), k)
  {
    hide Step, Admitted, DescribesIntent, ResultFits, SucceededBefore, SucceededAs, SetIntentState, Tally, WasThere;
    var s' := Step(job, env, s, cached);
    StepKeepsResultsInv(job, env, s, cached);
    StepWrites(job, env, s, cached);
    StepMoves(job, env, s, cached);
    AdmittedStays(job, env, s.results, s'.results, k);
    if s.phase.IntentStored? {
      UpdateSetsOwn(s.db, job.attempt, job.plan.operations[k].id, Mutating);
      DescriptionStays(job, k, s.db.intents, s'.db.intents);
    } else if s.phase.MarkedMutating? {
      OpenOrFail(job, env, s, cached);
    }
  }

  /** What follows from the opening of the parent for the books. */
  lemma OpenOrFail(job: Job, env: seq<OpEnv>, s: State, cached: bool)
    requires WellFormed(job, env, s) && s.phase.MarkedMutating?
    ensures
      var s' := Step(job, env, s, cached);
      || (s'.phase.ParentOpen? && s'.results == s.results && s'.i == s.i)
      || (s'.phase.AtOp? && s'.i == s.i + 1
        && s'.results == s.results + [OpResult(job.plan.operations[s.i].id, Failed, 0)])
  {
    hide Step, Components, ResolveDir, Finish;
    OpenExactly(job, env, s, cached);
    FinishBooks(s, job.plan.operations[s.i], Failed);
  }

  lemma MiddleKeepsOutcome(job: Job, env: seq<OpEnv>, db0: Tables, s: State, cached: bool, k: nat)
    requires WellFormed(job, env, s) && OwnKey(job, db0, k) && AdmissionInv(job, env, s)
    requires OutcomeFits(job, env, db0, s, k) && s.i == k
    requires s.phase.IntentStored? || s.phase.MarkedMutating? || s.phase.ParentOpen?
    ensures OutcomeFits(job, env, db0, Step(job, env, s, cached), k)
  {
    hide Step, Admitted, DescribesOutcome, ResultFits, SucceededBefore, SucceededAs, Tally;
    StepRecords(job, env, s, cached);
    StepMoves(job, env, s, cached);
    if s.phase.MarkedMutating? {
      OpenOrFail(job, env, s, cached);
    }
  }

  lemma DescriptionStays(job: Job, k: nat, before: seq<Intent>, after: seq<Intent>)
    requires k < |job.plan.operations|
    requires forall row :: row in before && KeyIs(row, job.attempt, job.plan.operations[k].id) ==>
      DescribesIntent(job, k, row)
    ensures forall row :: WasThere(before, job.attempt, job.plan.operations[k].id, row) ==> DescribesIntent(job, k, row)
  {
  }

  /** The end of operation `k`: its result, the state of its intent and the record. */
  lemma EndKeepsBookInv(job: Job, env: seq<OpEnv>, db0: Tables, s: State, cached: bool, k: nat)
    requires WellFormed(job, env, s) && OwnKey(job, db0, k) && AdmissionInv(job, env, s)
    requires BookInv(job, env, db0, s, k) && s.i == k && (s.phase.Mutated? || s.phase.Resolved?)
    ensures BookInv(job, env, db0, Step(job, env, s, cached), k)
  {
    hide Step, Admitted, DescribesOutcome, DescribesIntent, ResultFits, SucceededBefore, SucceededAs, SetIntentState;
    hide WasThere, Tally;
    var s' := Step(job, env, s, cached);
    StepKeepsResultsInv(job, env, s, cached);
    StepRecords(job, env, s, cached);
    StepKeepsOtherTables(job, env, s, cached);
    StepMoves(job, env, s, cached);
    StepWrites(job, env, s, cached);
    AdmittedStays(job, env, s.results, s'.results, k);
    if s.phase.Mutated? && !env[k].resolveFault {
      ResolutionExactly(job, env, s, cached);
      var id, r := job.plan.operations[k].id, s'.phase.result;
      var state :| ResolvedAs(job, env[k], s, r, state) && s'.db == SetIntentState(s.db, job.attempt, id, state);
      LastResult(s, s', r);
      UpdateSetsOwn(s.db, job.attempt, id, state);
      DescriptionStays(job, k, s.db.intents, s'.db.intents);
      assert ClosedState(env[k], r.status, state);
    } else if s.phase.Mutated? {
      ResolutionExactly(job, env, s, cached);
    }
  }

  lemma LastResult(s: State, s': State, r: OpResult)
    requires Books(s, s', r)
    ensures s'.results == s.results + [r]
  {
  }

  lemma StepKeepsBookInv(job: Job, env: seq<OpEnv>, db0: Tables, s: State, cached: bool, k: nat)
    requires WellFormed(job, env, s) && OwnKey(job, db0, k) && AdmissionInv(job, env, s)
    requires BookInv(job, env, db0, s, k)
    ensures BookInv(job, env, db0, Step(job, env, s, cached), k)
  {
    hide Step, BookInv, AdmissionInv;
    if s.i != k || Halted(s.phase) {
      OtherStepKeepsInv(job, env, db0, s, cached, k);
    } else if s.phase.AtOp? {
      GateKeepsBookInv(job, env, db0, s, cached, k);
    } else if s.phase.Mutated? || s.phase.Resolved? {
      EndKeepsBookInv(job, env, db0, s, cached, k);
    } else {
      MiddleKeepsBookInv(job, env, db0, s, cached, k);
    }
  }

  /**
   At every step of every run, for an operation with an identifier of its own and a free key: there is an intent
   under the key exactly once the operation was admitted and its statement worked, it describes the operation,
   and its state is the one that the result calls for; an outcome is recorded only for an admitted operation,
   always after a verified one unless that statement fails, and says what the operation is and how it ended.
   */
  lemma {:induction false} BookedExactly(
    job: Job, env: seq<OpEnv>, tree0: Tree, db0: Tables, cached: bool, n: nat, k: nat)
    requires |env| == |job.plan.operations| && OwnKey(job, db0, k)
    ensures BookInv(job, env, db0, Run(job, env, Init(tree0, db0), cached, n), k)
    decreases n
  {
    hide Step, BookInv, AdmissionInv;
    if n == 0 {
      StartsBooked(job, env, tree0, db0, k);
    } else {
      BookedExactly(job, env, tree0, db0, cached, n - 1, k);
      AdmissionInvAlways(job, env, tree0, db0, cached, n - 1);
      StepKeepsBookInv(job, env, db0, Run(job, env, Init(tree0, db0), cached, n - 1), cached, k);
    }
  }

  lemma StartsBooked(job: Job, env: seq<OpEnv>, tree0: Tree, db0: Tables, k: nat)
    requires |env| == |job.plan.operations| && OwnKey(job, db0, k)
    ensures BookInv(job, env, db0, Init(tree0, db0), k)
  {
    forall row | row in db0.intents ensures !KeyIs(row, job.attempt, job.plan.operations[k].id) {
      var i :| 0 <= i < |db0.intents| && db0.intents[i] == row;
    }
  }

  /** A refused operation leaves no intent, and what another attempt has locked is left alone. */
  lemma RefusedLeavesNoIntent(job: Job, env: seq<OpEnv>, tree0: Tree, db0: Tables, cached: bool, n: nat, k: nat)
    requires |env| == |job.plan.operations| && OwnKey(job, db0, k)
    requires env[k].cancelled || env[k].lockBusy || !Permitted(job, k)
    ensures !HasKey(
      Run(job, env, Init(tree0, db0), cached, n).db.intents, job.attempt, job.plan.operations[k].id)
  {
    hide Run, HasKey, Permitted, OutcomeFits, Begun, DescribesIntent, StateFits;
    BookedExactly(job, env, tree0, db0, cached, n, k);
  }

  /** Under a job that the store does not know nothing ever happens, on the disk or in the store. */
  lemma {:induction false} UnknownJobDoesNothing(
    job: Job, env: seq<OpEnv>, tree0: Tree, db0: Tables, cached: bool, n: nat)
    requires |env| == |job.plan.operations| && job.plan.jobId !in db0.jobs
    ensures
      var s := Run(job, env, Init(tree0, db0), cached, n);
      s.tree == tree0 && s.db == db0 && (s.phase.AtOp? || s.phase.Done?)
    decreases n
  {
    hide Step;
    if n > 0 {
      UnknownJobDoesNothing(job, env, tree0, db0, cached, n - 1);
      UnknownJobStep(job, env, Run(job, env, Init(tree0, db0), cached, n - 1), cached);
    }
  }

  lemma UnknownJobStep(job: Job, env: seq<OpEnv>, s: State, cached: bool)
    requires WellFormed(job, env, s) && job.plan.jobId !in s.db.jobs && (s.phase.AtOp? || s.phase.Done?)
    ensures
      var s' := Step(job, env, s, cached);
      s'.tree == s.tree && s'.db == s.db && (s'.phase.AtOp? || s'.phase.Done?)
  {
    hide Granted, AtBoundary, HasKey;
  }
}
