/** The figures of a finished run: every operation is counted once, bytes are the sum of the credits, and
 cancellation leaves what the operations before it did. */
module Accounting {
  import opened Domain
  import opened Paths
  import opened Filesystem
  import opened Verification
  import opened Durability
  import opened Authorization
  import opened Execution
  import opened CrashSafety
  import opened Ordering
  import opened Planning

  function Credits(results: seq<OpResult>): nat {
    if results == [] then 0 else Credits(results[..|results| - 1]) + results[|results| - 1].reclaimed
  }

  function Min(a: nat, b: nat): nat {
    if a <= b then a else b
  }

  /** The bytes that an operation can be credited with at most. */
  ghost function BytesOf(op: Operation): nat {
    if DeletionOf(op.op).Some? then DeletionOf(op.op).value.bytes else 0
  }

  /** The three counters cover the results. */
  ghost predicate Counted(s: State) {
    s.success + s.failed + s.skipped == |s.results|
  }

  ghost predicate Summed(s: State) {
    s.total == Min(Credits(s.results), U64_MAX)
  }

  ghost predicate WithinEstimates(job: Job, s: State) {
    && |s.results| <= |job.plan.operations|
    && forall k :: 0 <= k < |s.results| ==> s.results[k].reclaimed <= BytesOf(job.plan.operations[k])
  }

  ghost predicate Balanced(job: Job, s: State) {
    ResultsInv(job, s) && Counted(s) && Summed(s) && WithinEstimates(job, s)
  }

  lemma CreditIsBounded(job: Job, env: seq<OpEnv>, s: State, cached: bool)
    requires WellFormed(job, env, s) && s.phase.Mutated? && Step(job, env, s, cached).phase.Resolved?
    ensures Step(job, env, s, cached).phase.result.reclaimed <= BytesOf(job.plan.operations[s.i])
  {
    hide VerifyAtParent, SetIntentState, Tally;
  }

  lemma StepKeepsCounted(s: State, s': State)
    requires Counted(s) && (Quiet(s, s') || BooksLast(s, s'))
    ensures Counted(s')
  {
  }

  lemma StepKeepsSummed(s: State, s': State)
    requires Summed(s) && (Quiet(s, s') || BooksLast(s, s'))
    ensures Summed(s')
  {
    if !Quiet(s, s') {
      assert s'.results[..|s'.results| - 1] == s.results;
    }
  }

  lemma StepKeepsWithinEstimates(job: Job, env: seq<OpEnv>, s: State, cached: bool)
    requires WellFormed(job, env, s) && ResultsInv(job, s) && WithinEstimates(job, s)
    ensures WithinEstimates(job, Step(job, env, s, cached))
  {
    hide Step, ResultsInv, BytesOf;
    var s' := Step(job, env, s, cached);
    StepBooks(job, env, s, cached);
    StepKeepsResultsInv(job, env, s, cached);
    ResultsLength(job, s);
    ResultsLength(job, s');
    if s.phase.Mutated? && s'.phase.Resolved? {
      CreditIsBounded(job, env, s, cached);
    }
  }

  lemma StepKeepsBalanced(job: Job, env: seq<OpEnv>, s: State, cached: bool)
    requires WellFormed(job, env, s) && Balanced(job, s)
    ensures Balanced(job, Step(job, env, s, cached))
  {
    hide Step, ResultsInv, Counted, Summed, WithinEstimates, Quiet, BooksLast;
    StepBooks(job, env, s, cached);
    StepKeepsResultsInv(job, env, s, cached);
    StepKeepsCounted(s, Step(job, env, s, cached));
    StepKeepsSummed(s, Step(job, env, s, cached));
    StepKeepsWithinEstimates(job, env, s, cached);
  }

  lemma ResultsLength(job: Job, s: State)
    requires ResultsInv(job, s)
    ensures |s.results| == (if s.phase.Resolved? then s.i + 1 else s.i) <= |job.plan.operations|
  {
  }

  lemma {:induction false} BalancedAlways(job: Job, env: seq<OpEnv>, tree0: Tree, db0: Tables, cached: bool, n: nat)
    requires |env| == |job.plan.operations|
    ensures Balanced(job, Run(job, env, Init(tree0, db0), cached, n))
    decreases n
  {
    hide Step;
    if n > 0 {
      BalancedAlways(job, env, tree0, db0, cached, n - 1);
      StepKeepsBalanced(job, env, Run(job, env, Init(tree0, db0), cached, n - 1), cached);
    }
  }

  lemma {:induction false} DoneMeansAll(job: Job, env: seq<OpEnv>, s: State, cached: bool)
    requires WellFormed(job, env, s)
    requires s.phase.Done? ==> s.i == |job.plan.operations|
    ensures Final(job, env, s, cached).phase.Done? ==> Final(job, env, s, cached).i == |job.plan.operations|
    decreases |job.plan.operations| - s.i, Rank(s.phase)
  {
    if !Halted(s.phase) {
      var s' := Step(job, env, s, cached);
      assert s'.phase.Done? ==> s'.i == |job.plan.operations| && Rank(s'.phase) < Rank(s.phase) by {
        StepMoves(job, env, s, cached);
      }
      DoneMeansAll(job, env, s', cached);
    }
  }

  /**
   On normal return every operation is counted exactly once, and the reclaimed bytes are the sum of
   the credits of the single operations (up to the 64-bit ceiling), none above its own estimate.
   */
  lemma FiguresAddUp(job: Job, env: seq<OpEnv>, tree0: Tree, db0: Tables)
    requires |env| == |job.plan.operations|
    ensures
      var f := Final(job, env, Init(tree0, db0), true);
      f.phase.Done? ==>
        && f.success + f.failed + f.skipped == |job.plan.operations| == |f.results|
        && f.total == Min(Credits(f.results), U64_MAX)
        && forall k :: 0 <= k < |f.results| ==> f.results[k].reclaimed <= BytesOf(job.plan.operations[k])
  {
    hide Final, Run, Step;
    var n := FinalIsReached(job, env, Init(tree0, db0), true);
    BalancedAlways(job, env, tree0, db0, true, n);
    DoneMeansAll(job, env, Init(tree0, db0), true);
  }

  // ------------------------------------------------------------------ No clamping for built plans

  function ExactFileBytes(ps: seq<Permit>): nat {
    if ps == [] then 0
    else
      var n := |ps| - 1;
      ExactFileBytes(ps[..n]) + (if ps[n].kind.OfDirectory? then 0 else ps[n].kind.size)
  }

  ghost predicate Measured(ps: seq<Permit>) {
    forall p :: p in ps && p.kind.OfFile? ==> p.kind.size <= MAX_SAFE_BYTES
  }

  /** Sizes within 10 GiB and a plan within the budget never reach the 64-bit ceiling. */
  lemma {:induction false} NoClamp(ps: seq<Permit>)
    requires Measured(ps) && |ps| <= MAX_OPERATIONS
    ensures FileBytes(ps) == ExactFileBytes(ps) <= |ps| * MAX_SAFE_BYTES < U64_MAX
  {
    if ps != [] {
      var n := |ps| - 1;
      forall p | p in ps[..n] ensures p in ps {
      }
      assert ps[n] in ps;
      NoClamp(ps[..n]);
    }
  }

  lemma {:induction false} CreditsWithinPlan(results: seq<OpResult>, ps: seq<Permit>, n: nat)
    requires n == |results| <= |ps|
    requires forall k :: 0 <= k < n ==> results[k].reclaimed <= BytesOf(OperationAt(ps, k))
    ensures Credits(results) <= ExactFileBytes(ps[..n])
    decreases n
  {
    if n > 0 {
      CreditsWithinPlan(results[..n - 1], ps, n - 1);
      assert ps[..n][..n - 1] == ps[..n - 1];
    }
  }

  /** For a built plan over measured files: the exact sum, never clamped and never above the plan's estimate. */
  lemma ReclaimedWithinEstimate(job: Job, permits: seq<Permit>, env: seq<OpEnv>, tree0: Tree, db0: Tables)
    requires job.plan == PlanFor(job.plan.jobId, job.plan.catalogGen, job.plan.configGen, permits)
    requires |permits| <= MAX_OPERATIONS && Measured(permits)
    requires |env| == |job.plan.operations|
    ensures
      var f := Final(job, env, Init(tree0, db0), true);
      f.phase.Done? ==> f.total == Credits(f.results) <= job.plan.total < U64_MAX
  {
    hide Final, Arranged, FileBytes, ExactFileBytes, Credits;
    var f := Final(job, env, Init(tree0, db0), true);
    var ps := Arranged(permits);
    FiguresAddUp(job, env, tree0, db0);
    ArrangedIsPermutation(permits);
    forall p | p in ps ensures p in permits {
      assert p in multiset(ps);
    }
    NoClamp(ps);
    if f.phase.Done? {
      CreditsWithinPlan(f.results, ps, |ps|);
      assert ps[..|ps|] == ps;
    }
  }

  // ------------------------------------------------------------------ Cancellation

  /** The job cut down to its first `c` operations. */
  function Truncated(job: Job, c: nat): Job
    requires c <= |job.plan.operations|
  {
    job.(plan := job.plan.(operations := job.plan.operations[..c]))
  }

  lemma StepOfTruncated(job: Job, env: seq<OpEnv>, c: nat, s: State)
    requires WellFormed(job, env, s) && c <= |job.plan.operations| && s.i < c
    ensures WellFormed(Truncated(job, c), env[..c], s)
    ensures Step(job, env, s, true) == Step(Truncated(job, c), env[..c], s, true)
  {
    hide Mutate, Judge, VerifyAtParent, CommitIntent, SetIntentState;
    hide RecordResult, Components, Tally, Granted, AtBoundary;
    hide ResultRow, ResolveDir;
    assert job.plan.operations[..c][s.i] == job.plan.operations[s.i] && env[..c][s.i] == env[s.i];
  }

  /** Once everything is cancelled, each remaining operation is only booked as preempted. */
  lemma {:induction false} CancelledTail(job: Job, env: seq<OpEnv>, s: State)
    requires WellFormed(job, env, s) && s.phase.AtOp? && s.total <= U64_MAX
    requires forall k :: s.i <= k < |env| ==> env[k].cancelled
    ensures SameOutcome(Final(job, env, s, true), s.(phase := Done), |job.plan.operations| - s.i)
    decreases |job.plan.operations| - s.i
  {
    hide Granted, AtBoundary;
    var s' := Step(job, env, s, true);
    if s.i < |job.plan.operations| {
      assert s' == Finish(s, job.plan.operations[s.i], Preempted);
      CancelledTail(job, env, s');
    }
  }

  /** Two final states that differ at most in `more` extra skipped operations and in what only the run itself sees. */
  ghost predicate SameOutcome(f: State, g: State, more: nat) {
    && f.phase == g.phase && f.tree == g.tree && f.db == g.db && f.total == g.total
    && f.success == g.success && f.failed == g.failed && f.skipped == g.skipped + more
  }

  /** A cancelled run ends with the disk, the tables and the figures of a run of the operations before it. */
  lemma {:induction false} CancelledRunFrom(job: Job, env: seq<OpEnv>, c: nat, s: State)
    requires WellFormed(job, env, s) && c <= |job.plan.operations| && s.total <= U64_MAX
    requires forall k :: c <= k < |env| ==> env[k].cancelled
    requires s.i <= c && (s.i == c ==> s.phase.AtOp?) && !Halted(s.phase)
    ensures WellFormed(Truncated(job, c), env[..c], s)
    ensures
      var f, g := Final(job, env, s, true), Final(Truncated(job, c), env[..c], s, true);
      SameOutcome(f, g, if f.phase.Done? then |job.plan.operations| - c else 0)
    decreases |job.plan.operations| - s.i, Rank(s.phase)
  {
    var job' := Truncated(job, c);
    if s.i == c {
      CancelledTail(job, env, s);
      assert Step(job', env[..c], s, true) == s.(phase := Done);
    } else {
      StepOfTruncated(job, env, c, s);
      var s' := Step(job, env, s, true);
      StepMoves(job, env, s, true);
      if !Halted(s'.phase) {
        CancelledRunFrom(job, env, c, s');
      }
    }
  }

  /**
   Wherever cancellation strikes, the disk and the tables are what running only the operations before
   it leaves; the remaining operations are counted as skipped and credited with nothing.
   */
  lemma CancellationIsPrefix(job: Job, env: seq<OpEnv>, tree0: Tree, db0: Tables, c: nat)
    requires |env| == |job.plan.operations| && c <= |job.plan.operations|
    requires forall k :: c <= k < |env| ==> env[k].cancelled
    ensures
      var s0 := Init(tree0, db0);
      var f, g := Final(job, env, s0, true), Final(Truncated(job, c), env[..c], s0, true);
      SameOutcome(f, g, if f.phase.Done? then |job.plan.operations| - c else 0)
  {
    CancelledRunFrom(job, env, c, Init(tree0, db0));
  }
}
