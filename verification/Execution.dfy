/**
 The executor as a machine of atomic steps. A crash may strike between any two steps: what survives
 is the disk and the tables. Everything the environment decides for one operation (cancellation,
 lock contention, system-call and database faults) is an arbitrary input of the run.
 */
module Execution {
  import opened Domain
  import opened Paths
  import opened Filesystem
  import opened Verification
  import opened Durability
  import opened Authorization

  datatype Job = Job(plan: Plan, grant: Grant, catalog: Catalog, roots: Roots, attempt: nat)

  /** The environment of one operation. */
  datatype OpEnv = OpEnv(
    cancelled: bool,
    lockBusy: bool,
    commitFault: bool,
    markFault: bool,
    opens: OpenFaults,
    mutation: MutationFaults,
    verify: Option<Fault>,
    resolveFault: bool,
    recordFault: bool)

  /** The remembered handle of the last parent directory. */
  datatype Cache = Cache(target: TargetId, parent: seq<Name>, dir: Identity)

  datatype Phase =
    | AtOp
    | IntentStored
    | MarkedMutating
    | ParentOpen(dir: Identity, leaf: Name)
    | Mutated(dir: Identity, leaf: Name, ok: bool)
    | Resolved(result: OpResult)
    | Aborted
    | Done

  datatype State = State(
    tree: Tree,
    db: Tables,
    phase: Phase,
    i: nat,
    cache: Option<Cache>,
    succeeded: set<nat>,
    results: seq<OpResult>,
    total: nat,
    success: nat,
    failed: nat,
    skipped: nat)

  function Init(tree: Tree, db: Tables): State {
    State(tree, db, AtOp, 0, None, {}, [], 0, 0, 0, 0)
  }

  /** The part of an operation that the executor carries out itself. */
  datatype Deletion = Deletion(target: TargetId, relPath: string, expected: Identity, bytes: nat, isDir: bool)

  function DeletionOf(op: OpType): Option<Deletion> {
    match op
    case DeleteFile(t, p, id, size) => Some(Deletion(t, p, id, size, false))
    case DeleteDirEmpty(t, p, id) => Some(Deletion(t, p, id, 0, true))
    case _ => None
  }

  predicate InFlight(phase: Phase) {
    phase.IntentStored? || phase.MarkedMutating? || phase.ParentOpen? || phase.Mutated? || phase.Resolved?
  }

  predicate Halted(phase: Phase) {
    phase.Aborted? || phase.Done?
  }

  predicate WellFormed(job: Job, env: seq<OpEnv>, s: State) {
    && |env| == |job.plan.operations|
    && s.i <= |job.plan.operations|
    && (InFlight(s.phase) ==>
      && s.i < |job.plan.operations|
      && DeletionOf(job.plan.operations[s.i].op).Some?
      && DeletionOf(job.plan.operations[s.i].op).value.target in job.catalog.targets)
  }

  // ------------------------------------------------------------------ Gates

  datatype Decision = Refuse(status: Status) | Proceed(deletion: Deletion)

  function Decide(job: Job, e: OpEnv, succeeded: set<nat>, op: Operation): Decision {
    if e.cancelled then Refuse(Preempted)
    else if exists d :: d in op.deps && d !in succeeded then Refuse(Skipped)
    else if !Granted(job.grant, op.op) then Refuse(Failed)
    else match DeletionOf(op.op)
      case None => Refuse(Skipped)
      case Some(d) =>
        if d.target !in job.catalog.targets then Refuse(Failed)
        else if e.lockBusy then Refuse(Failed)
        else if !AtBoundary(job.catalog.targets[d.target], d.relPath, d.expected,
          job.catalog.generation) then Refuse(Failed)
        else Proceed(d)
  }

  function IntentFor(job: Job, op: Operation, d: Deletion): Intent {
    Intent(job.plan.jobId, job.attempt, op.id, d.target, d.relPath, d.expected, d.bytes,
           if d.isDir then RemoveEmptyDir else RemoveFile, Committed, job.catalog.generation, job.grant.configGen)
  }

  /** Books one result: the list, the counters, the credited bytes and the set that later operations wait for. */
  function Tally(s: State, r: OpResult): State {
    s.(results := s.results + [r],
       total := SaturatingAdd(s.total, r.reclaimed),
       succeeded := if r.status == Success then s.succeeded + {r.id} else s.succeeded,
       success := if r.status == Success then s.success + 1 else s.success,
       failed := if r.status == Failed || r.status == VerificationFailed then s.failed + 1 else s.failed,
       skipped := if r.status == Skipped || r.status == Preempted then s.skipped + 1 else s.skipped)
  }

  /** The loop's `continue`: book the result and go to the next operation. */
  function Finish(s: State, op: Operation, status: Status): State {
    Tally(s, OpResult(op.id, status, 0)).(i := s.i + 1, phase := AtOp)
  }

  // ------------------------------------------------------------------ Mutation and verification

  predicate CacheHit(cache: Option<Cache>, target: TargetId, parent: seq<Name>) {
    cache.Some? && cache.value.target == target && cache.value.parent == parent
  }

  /** The directory to mutate in: the remembered handle, or a fresh walk from the target root. */
  function ParentDir(
    job: Job, e: OpEnv, tree: Tree, cache: Option<Cache>, cached: bool, target: Target, parent: seq<Name>)
    : Reply<Identity>
  {
    if cached && CacheHit(cache, target.id, parent) then Ok(cache.value.dir)
    else ResolveDir(tree, job.roots, target.base, parent, e.opens)
  }

  /** A path has a leaf name unless it is empty or ends in "..". */
  predicate HasLeaf(path: seq<Name>) {
    path != [] && path[|path| - 1] != ".."
  }

  function Mutate(tree: Tree, d: Deletion, dir: Identity, leaf: Name, faults: MutationFaults): (Tree, bool) {
    if d.isDir then Rmdired(tree, dir, leaf, d.expected, faults) else Unlinked(tree, dir, leaf, d.expected, faults)
  }

  /** The table that turns a mutation's return and the verifier's verdict into a state, a status and a credit. */
  function Judge(ok: bool, v: Verdict, bytes: nat): (IntentState, Status, nat) {
    if IsDeletion(v) then (VerifiedSuccess, Success, if ok then bytes else 0)
    else if v == StillPresent || v == IdentityMismatch then
      (VerifiedFailed, if ok then VerificationFailed else Failed, 0)
    else (ResolvedUnknown, if ok then VerificationFailed else Failed, 0)
  }

  function ResultRow(d: Deletion, r: OpResult): OperationRow {
    OperationRow(d.target, if d.isDir then RemoveEmptyDir else RemoveFile, d.relPath, d.expected, d.bytes, r)
  }

  // ------------------------------------------------------------------ Steps

  function Step(job: Job, env: seq<OpEnv>, s: State, cached: bool): (s': State)
    requires WellFormed(job, env, s)
    ensures WellFormed(job, env, s')
  {
    if Halted(s.phase) then s
    else if s.i == |job.plan.operations| then s.(phase := Done)
    else
      var op := job.plan.operations[s.i];
      var e := env[s.i];
      if s.phase.AtOp? then StepGate(job, e, s, op)
      else
        var d := DeletionOf(op.op).value;
        match s.phase
        case IntentStored =>
          if e.markFault then s.(phase := Aborted)
          else s.(db := SetIntentState(s.db, job.attempt, op.id, Mutating), phase := MarkedMutating)
        case MarkedMutating => StepOpen(job, e, s, op, d, cached)
        case ParentOpen(dir, leaf) =>
          var (tree, ok) := Mutate(s.tree, d, dir, leaf, e.mutation);
          s.(tree := tree, phase := Mutated(dir, leaf, ok))
        case Mutated(dir, leaf, ok) =>
          var (state, status, credit) := Judge(ok, VerifyAtParent(s.tree, dir, leaf, d.expected, e.verify), d.bytes);
          if e.resolveFault then s.(phase := Aborted)
          else
            var r := OpResult(op.id, status, credit);
            Tally(s, r).(db := SetIntentState(s.db, job.attempt, op.id, state),
                         cache := if d.isDir then None else s.cache,
                         phase := Resolved(r))
        case Resolved(r) =>
          s.(db := if e.recordFault then s.db else RecordResult(s.db, job.plan.jobId, ResultRow(d, r)),
             i := s.i + 1,
             phase := AtOp)
  }

  function StepGate(job: Job, e: OpEnv, s: State, op: Operation): State {
    match Decide(job, e, s.succeeded, op)
    case Refuse(status) => Finish(s, op, status)
    case Proceed(d) =>
      match CommitIntent(s.db, IntentFor(job, op, d))
      case None => Finish(s, op, Failed)
      case Some(db) => if e.commitFault then Finish(s, op, Failed) else s.(db := db, phase := IntentStored)
  }

  function StepOpen(job: Job, e: OpEnv, s: State, op: Operation, d: Deletion, cached: bool): State
    requires d.target in job.catalog.targets
  {
    var path := Components(d.relPath);
    if !HasLeaf(path) then Finish(s, op, Failed)
    else
      var n := |path| - 1;
      var target := job.catalog.targets[d.target];
      match ParentDir(job, e, s.tree, s.cache, cached, target, path[..n])
      case Err(_) => Finish(s, op, Failed)
      case Ok(dir) =>
        s.(cache := Some(Cache(target.id, path[..n], dir)), phase := ParentOpen(dir, path[n]))
  }

  /** The state after `n` steps: every such state is a possible crash point. */
  function Run(job: Job, env: seq<OpEnv>, s: State, cached: bool, n: nat): (s': State)
    requires WellFormed(job, env, s)
    ensures WellFormed(job, env, s')
    decreases n
  {
    if n == 0 then s else Step(job, env, Run(job, env, s, cached, n - 1), cached)
  }

  // ------------------------------------------------------------------ What a step may do

  /** The counters, the results and the successes are as before. */
  ghost predicate Quiet(s: State, s': State) {
    && s'.results == s.results && s'.succeeded == s.succeeded && s'.total == s.total
    && s'.success == s.success && s'.failed == s.failed && s'.skipped == s.skipped
  }

  ghost predicate Books(s: State, s': State, r: OpResult) {
    Quiet(Tally(s, r), s')
  }

  ghost predicate BooksRefusal(job: Job, s: State, s': State)
    requires s.i < |job.plan.operations|
  {
    && s'.phase.AtOp? && s'.i == s.i + 1
    && |s'.results| > 0
    && var r := s'.results[|s'.results| - 1];
      r.id == job.plan.operations[s.i].id && r.status != Success && r.reclaimed == 0 && Books(s, s', r)
  }

  /** How control moves and what is booked on the way. */
  ghost predicate Moves(job: Job, s: State, s': State) {
    if Halted(s.phase) then s' == s
    else if s.i >= |job.plan.operations| then s' == s.(phase := Done)
    else
      var op := job.plan.operations[s.i];
      match s.phase
      case AtOp =>
        || (s'.phase.IntentStored? && s'.i == s.i && Quiet(s, s') && forall d :: d in op.deps ==> d in s.succeeded)
        || BooksRefusal(job, s, s')
      case IntentStored => s'.i == s.i && Quiet(s, s') && (s'.phase.MarkedMutating? || s'.phase.Aborted?)
      case MarkedMutating => (s'.phase.ParentOpen? && s'.i == s.i && Quiet(s, s')) || BooksRefusal(job, s, s')
      case ParentOpen(dir, leaf) =>
        s'.phase.Mutated? && s'.phase.dir == dir && s'.phase.leaf == leaf && s'.i == s.i && Quiet(s, s')
      case Mutated(_, _, _) =>
        && s'.i == s.i
        && ((s'.phase.Aborted? && Quiet(s, s'))
          || (s'.phase.Resolved? && s'.phase.result.id == op.id && Books(s, s', s'.phase.result)))
      case Resolved(_) => s'.phase.AtOp? && s'.i == s.i + 1 && Quiet(s, s')
  }

  lemma FinishBooksRefusal(job: Job, s: State, status: Status)
    requires s.i < |job.plan.operations| && status != Success
    ensures BooksRefusal(job, s, Finish(s, job.plan.operations[s.i], status))
  {
  }

  lemma StepMoves(job: Job, env: seq<OpEnv>, s: State, cached: bool)
    requires WellFormed(job, env, s)
    ensures Moves(job, s, Step(job, env, s, cached))
  {
    hide Mutate, Judge, VerifyAtParent, CommitIntent, SetIntentState, RecordResult, ParentDir, Components;
    hide IntentFor, ResultRow, Granted, AtBoundary, Finish, BooksRefusal;
    if s.i < |job.plan.operations| {
      FinishBooksRefusal(job, s, Preempted);
      FinishBooksRefusal(job, s, Skipped);
      FinishBooksRefusal(job, s, Failed);
    }
  }

  ghost predicate BooksLast(s: State, s': State) {
    && s'.results != []
    && var r := s'.results[|s'.results| - 1];
      Books(s, s', r) && (r.reclaimed == 0 || (s.phase.Mutated? && s'.phase == Resolved(r)))
  }

  /** A step books nothing, or exactly one result; only a resolved operation is credited with anything. */
  lemma StepBooks(job: Job, env: seq<OpEnv>, s: State, cached: bool)
    requires WellFormed(job, env, s)
    ensures Quiet(s, Step(job, env, s, cached)) || BooksLast(s, Step(job, env, s, cached))
  {
    hide Step;
    StepMoves(job, env, s, cached);
  }

  /** How a step changes the intent table. */
  ghost predicate Writes(job: Job, s: State, s': State) {
    if s.i >= |job.plan.operations| then s'.db == s.db
    else
      var op := job.plan.operations[s.i];
      if s.phase.AtOp? && s'.phase.IntentStored? then
        && DeletionOf(op.op).Some?
        && CommitIntent(s.db, IntentFor(job, op, DeletionOf(op.op).value)) == Some(s'.db)
      else if s.phase.IntentStored? && s'.phase.MarkedMutating? then
        s'.db == SetIntentState(s.db, job.attempt, op.id, Mutating)
      else if s.phase.Mutated? && s'.phase.Resolved? then
        exists state :: s'.db == SetIntentState(s.db, job.attempt, op.id, state)
          && state != Committed && (state == VerifiedSuccess <==> s'.phase.result.status == Success)
      else s'.db.intents == s.db.intents
  }

  lemma GateWrites(job: Job, e: OpEnv, s: State, op: Operation)
    ensures
      var s' := StepGate(job, e, s, op);
      if s'.phase.IntentStored? then
        DeletionOf(op.op).Some? && CommitIntent(s.db, IntentFor(job, op, DeletionOf(op.op).value)) == Some(s'.db)
      else s'.phase.AtOp? && s'.db == s.db
  {
    hide CommitIntent, IntentFor, Granted, AtBoundary;
  }

  lemma OpenWrites(job: Job, e: OpEnv, s: State, op: Operation, d: Deletion, cached: bool)
    requires d.target in job.catalog.targets
    ensures StepOpen(job, e, s, op, d, cached).db == s.db
  {
    hide ParentDir, Components;
  }

  lemma StepWrites(job: Job, env: seq<OpEnv>, s: State, cached: bool)
    requires WellFormed(job, env, s)
    ensures Writes(job, s, Step(job, env, s, cached))
  {
    hide Mutate, VerifyAtParent, CommitIntent, SetIntentState, StepGate, StepOpen, IntentFor, ResultRow;
    if s.i < |job.plan.operations| {
      GateWrites(job, env[s.i], s, job.plan.operations[s.i]);
      if s.phase.MarkedMutating? {
        OpenWrites(job, env[s.i], s, job.plan.operations[s.i], DeletionOf(job.plan.operations[s.i].op).value, cached);
      }
    }
  }

  /** Only the mutation step touches the disk. */
  lemma StepTouchesDisk(job: Job, env: seq<OpEnv>, s: State, cached: bool)
    requires WellFormed(job, env, s)
    ensures
      var s' := Step(job, env, s, cached);
      if s.phase.ParentOpen? then
        (s'.tree, s'.phase.ok) == Mutate(s.tree, DeletionOf(job.plan.operations[s.i].op).value,
                                         s.phase.dir, s.phase.leaf, env[s.i].mutation)
      else s'.tree == s.tree
  {
    hide Mutate, Judge, VerifyAtParent, CommitIntent, SetIntentState, RecordResult, ParentDir, Components;
    hide IntentFor, ResultRow, Granted, AtBoundary, Decide;
  }

  // ------------------------------------------------------------------ Halting

  function Rank(phase: Phase): nat {
    match phase
    case AtOp => 6
    case IntentStored => 5
    case MarkedMutating => 4
    case ParentOpen(_, _) => 3
    case Mutated(_, _, _) => 2
    case Resolved(_) => 1
    case Aborted => 0
    case Done => 0
  }

  /** The state in which the run comes to rest. */
  function Final(job: Job, env: seq<OpEnv>, s: State, cached: bool): (s': State)
    requires WellFormed(job, env, s)
    ensures WellFormed(job, env, s') && Halted(s'.phase)
    decreases |job.plan.operations| - s.i, Rank(s.phase)
  {
    if Halted(s.phase) then s else Final(job, env, Step(job, env, s, cached), cached)
  }

  lemma FinalStep(job: Job, env: seq<OpEnv>, s: State)
    requires WellFormed(job, env, s) && !Halted(s.phase)
    ensures Final(job, env, Step(job, env, s, true), true) == Final(job, env, s, true)
  {
    hide Step;
  }

  lemma {:induction false} RunFrom(job: Job, env: seq<OpEnv>, s: State, cached: bool, n: nat)
    requires WellFormed(job, env, s)
    ensures Run(job, env, s, cached, n + 1) == Run(job, env, Step(job, env, s, cached), cached, n)
    decreases n
  {
    if n > 0 {
      RunFrom(job, env, s, cached, n - 1);
    } else {
      assert Run(job, env, s, cached, 0) == s;
    }
  }

  /** The resting state is one of the run's states, so whatever holds at every crash point holds there. */
  lemma {:induction false} FinalIsReached(job: Job, env: seq<OpEnv>, s: State, cached: bool) returns (n: nat)
    requires WellFormed(job, env, s)
    ensures Final(job, env, s, cached) == Run(job, env, s, cached, n)
    decreases |job.plan.operations| - s.i, Rank(s.phase)
  {
    hide Step;
    if Halted(s.phase) {
      n := 0;
    } else {
      var s' := Step(job, env, s, cached);
      assert s'.i > s.i || (s'.i == s.i && Rank(s'.phase) < Rank(s.phase)) by {
        StepMoves(job, env, s, cached);
      }
      var m := FinalIsReached(job, env, s', cached);
      RunFrom(job, env, s, cached, m);
      n := m + 1;
    }
  }
}
