/**
 The bytes that recovery credits to a job. Each running attempt of the job overwrites the job's row, so
 what survives is the credit of the attempt that happens to be settled last.
 */
module JobCredit {
  import opened Domain
  import opened Paths
  import opened Filesystem
  import opened Verification
  import opened Durability
  import opened Authorization
  import opened Execution
  import opened CrashSafety
  import opened Ordering
  import opened Accounting
  import opened Recovery
  import opened Reconciliation
  import opened Interruption
  import opened Retry
  import opened CrashRecovery
  import opened Completeness

  // ------------------------------------------------------------------ Any order can happen

  /** Settling an attempt writes the row of its job and no other job row. */
  lemma SettlingCredits(survey: Survey, t: Tables, a: nat)
    requires a in t.attempts && Loadable(t.intents, a) && SettleAttempt(survey, t, a).1
    ensures
      var rows, j := RowsOf(t.intents, a), t.attempts[a].jobId;
      SettleAttempt(survey, t, a).0.jobs
        == if j in t.jobs then t.jobs[j := JobRow(JobVerdict(survey, rows), Reclaimed(survey, rows))] else t.jobs
  {
    hide SettleRows, RowsOf, JobVerdict, Reclaimed, AttemptVerdict, LoadableTarget;
    assert SettleIntents(survey, t, a).jobs == t.jobs && SettleIntents(survey, t, a).attempts == t.attempts by {
      RowsKeepJobs(survey, t, t.attempts[a].jobId, RowsOf(t.intents, a));
    }
  }

  lemma {:induction false} RowsKeepJobs(survey: Survey, t: Tables, jobId: nat, rows: seq<Intent>)
    ensures SettleRows(survey, t, jobId, rows).jobs == t.jobs && SettleRows(survey, t, jobId,
      rows).attempts == t.attempts
  {
    hide Settled, RecordOf;
    if rows != [] {
      RowsKeepJobs(survey, t, jobId, rows[..|rows| - 1]);
    }
  }

  /** The bytes that settling attempt `a` credits to its job. */
  ghost function CreditOf(survey: Survey, t0: Tables, a: nat): nat {
    if Loadable(t0.intents, a) then Reclaimed(survey, RowsOf(t0.intents, a)) else 0
  }

  /** The job row of attempt `a` carries that attempt's credit. */
  ghost predicate CreditedBy(survey: Survey, t0: Tables, t: Tables, a: nat)
    requires a in t0.attempts
  {
    t0.attempts[a].jobId in t0.jobs ==>
      t0.attempts[a].jobId in t.jobs && t.jobs[t0.attempts[a].jobId].reclaimed == CreditOf(survey, t0, a)
  }

  /** A recovery that went through the attempts before `a` and then through `a`. */
  lemma NextInOrder(survey: Survey, t0: Tables, order: seq<nat>)
    requires Recoverable(t0) && IsOrder(order, Elements(order)) && Elements(order) <= RunningAttempts(t0)
    requires order != [] && SettleInOrder(survey, t0, order).1
    ensures
      var front, a := order[..|order| - 1], order[|order| - 1];
      var t, t' := SettleInOrder(survey, t0, front).0, SettleInOrder(survey, t0, order).0;
      && IsOrder(front, Elements(front)) && Elements(front) <= RunningAttempts(t0)
      && SettleInOrder(survey, t0, front).1
      && a in t0.attempts && Loadable(t0.intents, a) && t.jobs.Keys == t0.jobs.Keys
      && var rows, j := RowsOf(t0.intents, a), t0.attempts[a].jobId;
        t'.jobs
          == if j in t.jobs then t.jobs[j := JobRow(JobVerdict(survey, rows), Reclaimed(survey, rows))] else t.jobs
  {
    hide SettleAttempt, UniqueKeys, RowsOf, LoadableTarget, SettledSoFar, JobVerdict, Reclaimed;
    var front, a := order[..|order| - 1], order[|order| - 1];
    assert order == front + [a];
    assert IsOrder(front, Elements(front)) && a !in Elements(front) && Elements(front) <= Elements(order);
    assert a in Elements(order);
    var t := SettleInOrder(survey, t0, front).0;
    InOrderSettles(survey, t0, front);
    NextIsUntouched(survey, t0, t, Elements(front), a);
    JobsKept(survey, t0, t, Elements(front));
    SettlingCredits(survey, t, a);
  }

  /** In whatever order the attempts are settled, the last one of a job is the one whose credit stays. */
  lemma {:induction false} LastOfJobWins(survey: Survey, t0: Tables, order: seq<nat>, k: nat)
    requires Recoverable(t0) && IsOrder(order, Elements(order)) && Elements(order) <= RunningAttempts(t0)
    requires SettleInOrder(survey, t0, order).1 && k < |order| && order[k] in t0.attempts
    requires forall i :: k < i < |order| && order[i] in t0.attempts ==>
      t0.attempts[order[i]].jobId != t0.attempts[order[k]].jobId
    ensures CreditedBy(survey, t0, SettleInOrder(survey, t0, order).0, order[k])
    decreases |order|
  {
    hide SettleInOrder, UniqueKeys, RowsOf, LoadableTarget, IsOrder, JobVerdict, Reclaimed;
    NextInOrder(survey, t0, order);
    if k < |order| - 1 {
      LastOfJobWins(survey, t0, order[..|order| - 1], k);
    }
  }

  /** Each running attempt can be that last one. */
  lemma AnyAttemptCanBeLast(survey: Survey, t0: Tables, a: nat)
    requires survey.store == SOUND_STORE && Recoverable(t0) && a in RunningAttempts(t0)
    ensures exists order ::
      && IsOrder(order, RunningAttempts(t0)) && SettleInOrder(survey, t0, order).1
      && CreditedBy(survey, t0, SettleInOrder(survey, t0, order).0, a)
  {
    hide SettleInOrder, UniqueKeys, Loadable, CreditedBy;
    var others := RunningAttempts(t0) - {a};
    SomeOrder(others);
    var before :| IsOrder(before, others);
    var order := before + [a];
    assert IsOrder(order, RunningAttempts(t0)) by { EndIsOrder(before, others, a, RunningAttempts(t0)); }
    IsElements(order, RunningAttempts(t0));
    assert Sound(survey) == survey;
    SoundGoesThrough(survey, t0, order);
    LastOfJobWins(survey, t0, order, |before|);
  }

  lemma EndIsOrder(before: seq<nat>, others: set<nat>, a: nat, all: set<nat>)
    requires IsOrder(before, others) && a !in others && all == others + {a}
    ensures IsOrder(before + [a], all)
  {
    forall x ensures x in all <==> x in before + [a] {
      assert x in before + [a] <==> x in before || x == a;
    }
  }

  lemma JobsKept(survey: Survey, t0: Tables, t: Tables, done: set<nat>)
    requires SettledSoFar(survey, t0, t, done)
    ensures t.jobs.Keys == t0.jobs.Keys
  {
    hide AttemptsSettled, IntentsSettled, OutcomesRecorded, WritesJob;
  }

  // ------------------------------------------------------------------ When the credit is kept

  /** The attempt itself is always credited with at least what the run had booked, and within its estimates. */
  lemma OwnCredit(job: Job, env: seq<OpEnv>, tree0: Tree, db0: Tables, n: nat)
    requires |env| == |job.plan.operations| && CatalogOk(job.catalog) && Storable(job)
    requires UniqueKeys(db0.intents) && Loadable(db0.intents, job.attempt)
    ensures
      var s := Run(job, env, Init(tree0, db0), true, n);
      s.total <= CreditOf(Aftermath(job, s.tree), s.db, job.attempt) <= BytesCommitted(s.db.intents, job.attempt)
  {
    hide Step, Run, UniqueKeys, Storable, RowsOf, LoadableTarget, Reclaimed, BytesGone, ResultsInv, Credits;
    var s := Run(job, env, Init(tree0, db0), true, n);
    TablesInvAlways(job, env, tree0, db0, true, n);
    CreditInvAlways(job, env, tree0, db0, true, n);
    BalancedAlways(job, env, tree0, db0, true, n);
    ReclaimedIsBytesGone(Aftermath(job, s.tree), s.db.intents, job.attempt);
    RecoveredWithinEstimates(Aftermath(job, s.tree), s.db.intents, job.attempt);
  }

  lemma JobIsCredited(survey: Survey, t0: Tables, t: Tables, j: nat, a: nat) returns (b: nat)
    requires SettledSoFar(survey, t0, t, RunningAttempts(t0)) && j in t0.jobs
    requires a in RunningAttempts(t0) && t0.attempts[a].jobId == j
    ensures b in RunningAttempts(t0) && t0.attempts[b].jobId == j && j in t.jobs
    ensures t.jobs[j].reclaimed == CreditOf(survey, t0, b)
  {
    hide AttemptsSettled, IntentsSettled, OutcomesRecorded, RowsOf, Reclaimed, JobVerdict, LoadableTarget;
    b :| b in RunningAttempts(t0) && WritesJob(survey, t0, b, j, t.jobs[j]);
  }

  ghost predicate CreditsAtLeast(survey: Survey, t0: Tables, order: seq<nat>, j: nat, bytes: nat) {
    var t := SettleInOrder(survey, t0, order).0;
    j in t.jobs && bytes <= t.jobs[j].reclaimed
  }

  /**
   Recovery credits a job with at least `bytes` in every order exactly when each of its running attempts
   has absent intents worth that much.
   */
  lemma CreditIsKeptExactly(survey: Survey, t0: Tables, j: nat, bytes: nat)
    requires survey.store == SOUND_STORE && Recoverable(t0) && j in t0.jobs
    requires exists a :: a in RunningAttempts(t0) && t0.attempts[a].jobId == j
    ensures (forall order :: IsOrder(order, RunningAttempts(t0)) ==> CreditsAtLeast(survey, t0, order, j, bytes))
      <==> forall a :: a in RunningAttempts(t0) && t0.attempts[a].jobId == j ==> bytes <= CreditOf(survey, t0, a)
  {
    hide SettledSoFar, UniqueKeys, Loadable, CreditOf, SettleInOrder, IsOrder;
    if forall a :: a in RunningAttempts(t0) && t0.attempts[a].jobId == j ==> bytes <= CreditOf(survey, t0, a) {
      var a :| a in RunningAttempts(t0) && t0.attempts[a].jobId == j;
      forall order | IsOrder(order, RunningAttempts(t0)) ensures CreditsAtLeast(survey, t0, order, j, bytes) {
        assert Sound(survey) == survey;
        SoundGoesThrough(survey, t0, order);
        var b := JobIsCredited(survey, t0, SettleInOrder(survey, t0, order).0, j, a);
      }
    } else {
      var a :| a in RunningAttempts(t0) && t0.attempts[a].jobId == j && bytes > CreditOf(survey, t0, a);
      AnyAttemptCanBeLast(survey, t0, a);
      var order :| IsOrder(order, RunningAttempts(t0)) && SettleInOrder(survey, t0, order).1
        && CreditedBy(survey, t0, SettleInOrder(survey, t0, order).0, a);
      assert !CreditsAtLeast(survey, t0, order, j, bytes);
    }
  }

  /**
   Crash anywhere, then recover without faults, with no other running attempt of the job: the job is
   credited with at least the bytes booked before the crash and at most the committed estimates.
   */
  lemma CreditSurvivesCrash(job: Job, env: seq<OpEnv>, tree0: Tree, db0: Tables, n: nat, t: Tables)
    requires |env| == |job.plan.operations| && CatalogOk(job.catalog) && Storable(job)
    requires UniqueKeys(db0.intents) && Loadable(db0.intents, job.attempt)
    requires job.attempt in RunningAttempts(db0) && db0.attempts[job.attempt].jobId == job.plan.jobId
    requires job.plan.jobId in db0.jobs
    requires forall a :: a in RunningAttempts(db0) && a != job.attempt ==> db0.attempts[a].jobId != job.plan.jobId
    requires Recovered(job, Run(job, env, Init(tree0, db0), true, n), t)
    ensures
      var s := Run(job, env, Init(tree0, db0), true, n);
      && job.plan.jobId in t.jobs
      && s.total <= t.jobs[job.plan.jobId].reclaimed <= BytesCommitted(s.db.intents, job.attempt)
  {
    hide Step, Run, UniqueKeys, Storable, Loadable, SettledSoFar, CreditOf;
    var s := Run(job, env, Init(tree0, db0), true, n);
    AttemptsStay(job, env, tree0, db0, n);
    assert RunningAttempts(s.db) == RunningAttempts(db0);
    OwnCredit(job, env, tree0, db0, n);
    var b := JobIsCredited(Aftermath(job, s.tree), s.db, t, job.plan.jobId, job.attempt);
  }

  // ------------------------------------------------------------------ A lost credit

  ghost predicate NoIntentsOf(rows: seq<Intent>, b: nat) {
    forall i :: 0 <= i < |rows| ==> rows[i].attempt != b
  }

  /** A run stores intents of its own attempt only. */
  lemma {:induction false} OthersHaveNoIntents(job: Job, env: seq<OpEnv>, tree0: Tree, db0: Tables, n: nat, b: nat)
    requires |env| == |job.plan.operations| && b != job.attempt
    requires NoIntentsOf(db0.intents, b)
    ensures NoIntentsOf(Run(job, env, Init(tree0, db0), true, n).db.intents, b)
    decreases n
  {
    hide Step, NoIntentsOf;
    if n > 0 {
      OthersHaveNoIntents(job, env, tree0, db0, n - 1, b);
      StepStoresOwn(job, env, Run(job, env, Init(tree0, db0), true, n - 1), b);
    }
  }

  lemma StepStoresOwn(job: Job, env: seq<OpEnv>, s: State, b: nat)
    requires WellFormed(job, env, s) && b != job.attempt
    requires NoIntentsOf(s.db.intents, b)
    ensures NoIntentsOf(Step(job, env, s, true).db.intents, b)
  {
    hide Step, SetIntentState;
    var s' := Step(job, env, s, true);
    StepWrites(job, env, s, true);
    StepMoves(job, env, s, true);
    if s.i < |job.plan.operations| {
      var op := job.plan.operations[s.i].id;
      if s.phase.IntentStored? && s'.phase.MarkedMutating? {
        SetStateKeepsKeys(s.db, job.attempt, op, Mutating);
      } else if s.phase.Mutated? && s'.phase.Resolved? {
        var state :| s'.db == SetIntentState(s.db, job.attempt, op, state);
        SetStateKeepsKeys(s.db, job.attempt, op, state);
      }
    }
  }

  lemma {:induction false} NoRows(rows: seq<Intent>, b: nat)
    requires NoIntentsOf(rows, b)
    ensures Loadable(rows, b) && RowsOf(rows, b) == []
  {
    hide LoadableTarget;
    if rows != [] {
      NoRows(rows[..|rows| - 1], b);
    }
  }

  const ROOT := Identity(1, 1)
  const FILE := Identity(1, 2)
  const BASE: seq<string> := ["/", "data", "cache"]

  /** One file "f" of five bytes below a cache root. */
  function OneFileTree(): Tree {
    map[Edge(ROOT, "f") := Entry(FILE, RegularFile)]
  }

  /** The job that deletes it, as attempt 1 of job 7. */
  function OneFileJob(): Job {
    Job(
      Plan(7, 0, 0, [Operation(1, DeleteFile("t", "f", FILE, 5), [], 5)], 5),
      Grant([CanDeleteFile("t", "f")], 0, 0, 0),
      Catalog(0, map["t" := Target("t", BASE, 1, StandardCache, 0)]),
      map[BASE := ROOT],
      1)
  }

  /** A store in which attempts 1 and 2 of job 7 are both running. */
  function TwoRunning(): Tables {
    Tables(
      map[7 := JobRow("ADMITTED", 0)],
      map[1 := AttemptRow(7, 0, RUNNING, 0), 2 := AttemptRow(7, 0, RUNNING, 0)],
      [], map[], map[])
  }

  function Undisturbed(): seq<OpEnv> {
    [OpEnv(false, false, false, false, map[], MutationFaults(None, None), None, false, false)]
  }

  lemma FileName()
    ensures IsRelPath("f") && Components("f") == ["f"] && ValidComponent("f")
    ensures LoadableTarget("t")
  {
    SplitWithoutSlash("f");
    KeepAll(["f"]);
    ShortLength("f");
    ShortLength("t");
    assert 't' in "t" && !IsWhitespace('t');
  }

  lemma CacheRootIsSafe()
    ensures SafeRoot(BASE)
  {
    assert BASE[1] == "data" && BASE[2] == "cache";
    assert |"data"| == 4 && |"cache"| == 5 && "data"[0] == 'd' && "boot"[0] == 'b' && "apex"[0] == 'a';
    forall i | 0 <= i < |PROTECTED| ensures !(PROTECTED[i] <= BASE) {
      assert PROTECTED[i][1] != "data" || PROTECTED[i][2] != "cache";
    }
  }

  lemma OneFileIsFeasible()
    ensures Feasible(OneFileJob(), OneFileTree(), [Edge(ROOT, "f")]) && Storable(OneFileJob())
  {
    hide IsRelPath, Components, LoadableTarget, SafeRoot;
    var job, tree0, edges := OneFileJob(), OneFileTree(), [Edge(ROOT, "f")];
    FileName();
    CacheRootIsSafe();
    assert SameCapability(job.grant.capabilities[0], CapabilityFor(job.plan.operations[0].op));
    assert Granted(job.grant, job.plan.operations[0].op);
    assert DirAt(job, tree0, "t", []) == Ok(ROOT);
    assert ["f"][..0] == [];
    assert AtPath(job, tree0, Del(job, 0), ROOT, "f");
    assert edges[..0] == [];
    assert Executable(job, tree0, edges, 0);
  }

  lemma OneFileRun() returns (n: nat)
    ensures Run(OneFileJob(), Undisturbed(), Init(OneFileTree(), TwoRunning()), true, n).total == 5
  {
    hide Final, Run, Feasible, Storable;
    var job, tree0, env, db0 := OneFileJob(), OneFileTree(), Undisturbed(), TwoRunning();
    var f := Final(job, env, Init(tree0, db0), true);
    OneFileIsFeasible();
    EverythingPlannedIsDeleted(job, env, tree0, [Edge(ROOT, "f")], db0);
    FiguresAddUp(job, env, tree0, db0);
    n := FinalIsReached(job, env, Init(tree0, db0), true);
    assert f.results[0] == FullCredit(job, 0);
    assert f.results[..0] == [] && Credits([]) == 0;
  }

  /**
   With a second running attempt of the job the order decides: a run that had booked five bytes crashes,
   and recovery credits them when it settles that attempt last, and none when it settles the other, idle one last.
   */
  lemma CreditCanBeOverwritten()
    ensures exists n: nat ::
      var s := Run(OneFileJob(), Undisturbed(), Init(OneFileTree(), TwoRunning()), true, n);
      var survey := Aftermath(OneFileJob(), s.tree);
      && s.total == 5 && RunningAttempts(s.db) == {1, 2}
      && CreditAfter(survey, s.db, [1, 2], 7) == Some(0)
      && exists bytes :: bytes >= 5 && CreditAfter(survey, s.db, [2, 1], 7) == Some(bytes)
  {
    hide Run, Storable, Feasible, UniqueKeys, Loadable, CreditAfter;
    var job, tree0, env, db0 := OneFileJob(), OneFileTree(), Undisturbed(), TwoRunning();
    var n := OneFileRun();
    var s := Run(job, env, Init(tree0, db0), true, n);
    var survey := Aftermath(job, s.tree);
    assert Storable(job) by { OneFileIsFeasible(); }
    EmptyJournal(db0);
    TablesInvAlways(job, env, tree0, db0, true, n);
    OthersHaveNoIntents(job, env, tree0, db0, n, 2);
    NoRows(s.db.intents, 2);
    OwnCredit(job, env, tree0, db0, n);
    assert RunningAttempts(s.db) == {1, 2};
    SecondIsCredited(survey, s.db, 1, 2, 7);
    SecondIsCredited(survey, s.db, 2, 1, 7);
    assert CreditAfter(survey, s.db, [2, 1], 7) == Some(CreditOf(survey, s.db, 1));
  }

  /** The bytes on the job's row after a recovery in this order that went through. */
  function CreditAfter(survey: Survey, t0: Tables, order: seq<nat>, j: nat): Option<nat> {
    var (t, ok) := SettleInOrder(survey, t0, order);
    if ok && j in t.jobs then Some(t.jobs[j].reclaimed) else None
  }

  /** Of two running attempts of a job, the one settled second is credited. */
  lemma SecondIsCredited(survey: Survey, t: Tables, first: nat, second: nat, j: nat)
    requires survey.store == SOUND_STORE && Recoverable(t) && first != second && j in t.jobs
    requires RunningAttempts(t) == {first, second} && t.attempts[first].jobId == j == t.attempts[second].jobId
    ensures CreditAfter(survey, t, [first, second], j) == Some(CreditOf(survey, t, second))
  {
    hide SettleInOrder, UniqueKeys, Loadable, CreditOf, IsOrder, SettledSoFar;
    var order := [first, second];
    PairIsOrder(first, second);
    assert Sound(survey) == survey;
    SoundGoesThrough(survey, t, order);
    LastOfJobWins(survey, t, order, 1);
  }

  lemma PairIsOrder(x: nat, y: nat)
    requires x != y
    ensures IsOrder([x, y], {x, y}) && Elements([x, y]) == {x, y}
  {
  }

  lemma EmptyJournal(db: Tables)
    requires db.intents == []
    ensures UniqueKeys(db.intents) && forall a :: Loadable(db.intents, a)
  {
  }
}
