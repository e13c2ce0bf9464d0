/** Leases and attempts: who may work on a job, and under which identifier, across restarts and crashes. */
module Workers {
  import opened Domain
  import opened Filesystem
  import opened Durability
  import opened Authorization
  import opened Execution
  import opened CrashSafety
  import opened Planning
  import opened Recovery
  import opened Reconciliation
  import opened Interruption
  import opened Retry
  import opened CrashRecovery

  function Decimal(n: nat): string {
    if n < 10 then ["0123456789"[n]] else Decimal(n / 10) + ["0123456789"[n % 10]]
  }

  function JobResource(jobId: nat): string {
    "job:" + Decimal(jobId)
  }

  /** A claim of a job, with the database errors that it meets. */
  datatype Request = Request(worker: nat, jobId: nat, ttl: nat, now: nat, leaseFault: bool, createFault: bool)

  /**
   Takes the job's lease and stores a running attempt; any refusal or error ends the claim, the lease staying
   taken.
   */
  function Claimed(t: Tables, counter: nat, q: Request): (Tables, Option<nat>) {
    if q.leaseFault then (t, None)
    else
      var (t1, granted) := AcquireLease(t, JobResource(q.jobId), q.worker, q.ttl, q.now);
      if !granted || q.createFault then (t1, None)
      else match CreateAttempt(t1, counter, q.jobId, q.worker, q.now + q.ttl)
        case None => (t1, None)
        case Some(t2) => (t2, Some(counter))
  }

  class WorkerPool {
    const store: SqliteStore
    const worker: nat
    var counter: nat
    var running: bool

    /** Seeds the counter above every stored attempt; if the query fails, the error is swallowed and the seed is 1. */
    constructor (store: SqliteStore, worker: nat, fault: bool)
      ensures this.store == store && this.worker == worker && !running
      ensures counter == Seeded(store.View(), fault)
    {
      var m := store.GetMaxAttemptId(fault);
      this.store := store;
      this.worker := worker;
      counter := m + 1;
      running := false;
      new;
      if !fault {
        SeedIsMax(store.View(), m);
      }
    }

    method ClaimAttempt(jobId: nat, ttl: nat, now: nat, leaseFault: bool, createFault: bool)
      returns (attempt: Option<nat>)
      modifies this, store
      ensures (store.View(), attempt)
        == Claimed(old(store.View()), old(counter), Request(worker, jobId, ttl, now, leaseFault, createFault))
      ensures counter == old(counter) + 1
      ensures running == (old(running) || attempt.Some?)
    {
      var id := counter;
      counter := counter + 1;
      var granted := store.AcquireResourceLease(JobResource(jobId), worker, ttl, now, leaseFault);
      if granted != Some(true) {
        return None;
      }
      var ok := store.CreateRunningAttempt(id, jobId, worker, now + ttl, createFault);
      if !ok {
        return None;
      }
      running := true;
      return Some(id);
    }

    /**
     If the state cannot be updated the attempt stays as it was and the lease is kept; a failed release is
     ignored.
     */
    method FinishAttempt(attempt: nat, jobId: nat, state: string, updateFault: bool, releaseFault: bool)
      returns (ok: bool)
      modifies this, store
      ensures ok == !updateFault && counter == old(counter)
      ensures !ok ==> store.View() == old(store.View()) && running == old(running)
      ensures ok ==>
        var t := SetAttemptState(old(store.View()), attempt, state);
        !running && store.View() == if releaseFault then t else ReleaseLease(t, JobResource(jobId), worker)
    {
      ok := store.UpdateAttemptState(attempt, state, updateFault);
      if ok {
        store.ReleaseResourceLease(JobResource(jobId), worker, releaseFault);
        running := false;
      }
    }
  }

  // ------------------------------------------------------------------ Lease exclusion

  datatype LeaseStep =
    | Acquire(resource: string, worker: nat, ttl: nat, now: nat)
    | Release(resource: string, worker: nat)

  function LeaseAfter(t: Tables, steps: seq<LeaseStep>): Tables {
    if steps == [] then t
    else
      var before := LeaseAfter(t, steps[..|steps| - 1]);
      match steps[|steps| - 1]
      case Acquire(resource, worker, ttl, now) => AcquireLease(before, resource, worker, ttl, now).0
      case Release(resource, worker) => ReleaseLease(before, resource, worker)
  }

  /** The holder neither renews nor releases, and no acquisition happens after `until`. */
  ghost predicate Undisputed(steps: seq<LeaseStep>, resource: string, holder: nat, until: nat) {
    forall s :: s in steps ==>
      && !(s.resource == resource && s.worker == holder)
      && (s.Acquire? ==> s.now <= until)
  }

  lemma {:induction false} LeaseIsKept(t: Tables, steps: seq<LeaseStep>, resource: string, lease: Lease, until: nat)
    requires resource in t.leases && t.leases[resource] == lease && until < lease.expiresAt
    requires Undisputed(steps, resource, lease.worker, until)
    ensures resource in LeaseAfter(t, steps).leases && LeaseAfter(t, steps).leases[resource] == lease
  {
    if steps != [] {
      var n := |steps| - 1;
      forall s | s in steps[..n] ensures s in steps {
      }
      LeaseIsKept(t, steps[..n], resource, lease, until);
      assert steps[n] in steps;
    }
  }

  /**
   After a worker's latest grant at `now` for `ttl`, whatever other workers try in between, an
   acquisition before `now + ttl` succeeds exactly for the holder.
   */
  lemma LeaseExcludesOthers(
    t: Tables, resource: string, holder: nat, ttl: nat, now: nat, steps: seq<LeaseStep>,
    worker: nat, ttl': nat, now': nat)
    requires AcquireLease(t, resource, holder, ttl, now).1
    requires now' < now + ttl && Undisputed(steps, resource, holder, now')
    ensures AcquireLease(LeaseAfter(AcquireLease(t, resource, holder, ttl, now).0, steps), resource, worker, ttl',
      now').1
      <==> worker == holder
  {
    LeaseIsKept(AcquireLease(t, resource, holder, ttl, now).0, steps, resource, Lease(holder, now, now + ttl), now');
  }

  /** Once the lease has run out, anybody can take it. */
  lemma ExpiredLeaseIsFree(
    t: Tables, resource: string, holder: nat, ttl: nat, now: nat, worker: nat, ttl': nat, now': nat)
    requires AcquireLease(t, resource, holder, ttl, now).1 && now' >= now + ttl
    ensures AcquireLease(AcquireLease(t, resource, holder, ttl, now).0, resource, worker, ttl', now').1
  {
  }

  /** Once the holder has released the lease, anybody can take it; nobody else can release it. */
  lemma ReleaseExactly(
    t: Tables, resource: string, holder: nat, ttl: nat, now: nat, releaser: nat, worker: nat, ttl': nat, now': nat)
    requires AcquireLease(t, resource, holder, ttl, now).1 && now' < now + ttl && worker != holder
    ensures
      var t1 := ReleaseLease(AcquireLease(t, resource, holder, ttl, now).0, resource, releaser);
      AcquireLease(t1, resource, worker, ttl', now').1 <==> releaser == holder
  {
  }

  lemma {:induction false} DecimalIsInjective(a: nat, b: nat)
    requires Decimal(a) == Decimal(b)
    ensures a == b
    decreases a
  {
    var x, y := Decimal(a), Decimal(b);
    DigitsDiffer(a % 10, b % 10);
    assert x[|x| - 1] == "0123456789"[a % 10] && y[|y| - 1] == "0123456789"[b % 10];
    DecimalLength(a);
    DecimalLength(b);
    if a >= 10 && b >= 10 {
      assert x[..|x| - 1] == Decimal(a / 10) && y[..|y| - 1] == Decimal(b / 10);
      DecimalIsInjective(a / 10, b / 10);
    }
  }

  lemma DecimalLength(n: nat)
    ensures |Decimal(n)| == 1 <==> n < 10
    ensures |Decimal(n)| >= 1
  {
    if n >= 10 {
      DecimalLength(n / 10);
    }
  }

  lemma DigitsDiffer(a: nat, b: nat)
    requires a < 10 && b < 10
    ensures "0123456789"[a] == "0123456789"[b] ==> a == b
  {
  }

  /** The lease of one job never stands in the way of another. */
  lemma JobsHaveTheirOwnLeases(t: Tables, a: nat, b: nat, holder: nat, ttl: nat, now: nat)
    requires a != b
    ensures
      var t1 := AcquireLease(t, JobResource(a), holder, ttl, now).0;
      JobResource(b) in t1.leases <==> JobResource(b) in t.leases
    ensures
      var t1 := AcquireLease(t, JobResource(a), holder, ttl, now).0;
      JobResource(b) in t.leases ==> t1.leases[JobResource(b)] == t.leases[JobResource(b)]
  {
    if JobResource(a) == JobResource(b) {
      assert JobResource(a)[4..] == Decimal(a) && JobResource(b)[4..] == Decimal(b);
      DecimalIsInjective(a, b);
    }
  }

  /** Another worker holds the job's lease and it has not run out. */
  ghost predicate HeldByAnother(t: Tables, q: Request) {
    var r := JobResource(q.jobId);
    r in t.leases && t.leases[r].worker != q.worker && q.now < t.leases[r].expiresAt
  }

  /**
   A claim succeeds exactly if neither statement fails, nobody else holds the job's lease, and the attempt can be
   stored; then and only then a running attempt with the lease's expiry is there, new or revived. The lease is
   taken exactly if it could be, even if the claim fails afterwards.
   */
  lemma ClaimExactly(t: Tables, counter: nat, q: Request)
    ensures
      var (t', claimed) := Claimed(t, counter, q);
      var leased := !q.leaseFault && !HeldByAnother(t, q);
      var stored := leased && !q.createFault && (counter in t.attempts || q.jobId in t.jobs);
      && claimed == (if stored then Some(counter) else None)
      && t'.leases
        == (if leased then t.leases[JobResource(q.jobId) := Lease(q.worker, q.now, q.now + q.ttl)] else t.leases)
      && t'.attempts
        == (if !stored then t.attempts
            else if counter in t.attempts then
              var old_ := t.attempts[counter];
              t.attempts[counter := AttemptRow(old_.jobId, old_.worker, "RUNNING", q.now + q.ttl)]
            else t.attempts[counter := AttemptRow(q.jobId, q.worker, "RUNNING", q.now + q.ttl)])
      && t'.jobs == t.jobs && t'.intents == t.intents && t'.operations == t.operations
  {
  }

  // ------------------------------------------------------------------ Attempt identifiers

  ghost predicate IsSeed(ids: set<nat>, n: nat) {
    n >= 1 && (forall a :: a in ids ==> a < n) && (n == 1 || n - 1 in ids)
  }

  /** One more than the largest stored attempt identifier. */
  ghost function Seed(t: Tables): (n: nat)
    ensures IsSeed(t.attempts.Keys, n)
  {
    SeedExists(t.attempts.Keys);
    var n: nat :| IsSeed(t.attempts.Keys, n);
    n
  }

  lemma {:induction false} SeedExists(ids: set<nat>)
    ensures exists n: nat :: IsSeed(ids, n)
  {
    if ids == {} {
      assert IsSeed(ids, 1);
    } else {
      var a :| a in ids;
      SeedExists(ids - {a});
      var n: nat :| IsSeed(ids - {a}, n);
      assert forall b :: b in ids ==> b == a || b in ids - {a};
      assert IsSeed(ids, if a < n then n else a + 1);
    }
  }

  lemma SeedIsMax(t: Tables, m: nat)
    requires (forall a :: a in t.attempts ==> a <= m) && (m == 0 || m in t.attempts)
    ensures Seed(t) == m + 1
  {
  }

  /** Every intent belongs to a stored attempt. */
  ghost predicate Logged(t: Tables) {
    forall i :: 0 <= i < |t.intents| ==> t.intents[i].attempt in t.attempts
  }

  /** The counter after a start: a failed query for the largest identifier reads as 0. */
  ghost function Seeded(t: Tables, fault: bool): nat {
    if fault then 1 else Seed(t)
  }

  /** The life of the daemon: claims, whatever keeps the attempts and logs its intents, and restarts at any point. */
  datatype LifeStep = Restart(fault: bool) | Claim(request: Request) | Work(result: Tables)

  /**
   What may happen to the tables between claims: no attempt row comes or goes, and new intents name stored
   attempts.
   */
  ghost predicate Orderly(before: Tables, after: Tables) {
    after.attempts.Keys == before.attempts.Keys && (Logged(before) ==> Logged(after))
  }

  datatype Daemon = Daemon(db: Tables, counter: nat)

  ghost predicate Possible(d: Daemon, step: LifeStep) {
    step.Work? ==> Orderly(d.db, step.result)
  }

  ghost function Lived(d: Daemon, step: LifeStep): Daemon {
    match step
    case Restart(fault) => Daemon(d.db, Seeded(d.db, fault))
    case Claim(request) => Daemon(Claimed(d.db, d.counter, request).0, d.counter + 1)
    case Work(result) => Daemon(result, d.counter)
  }

  ghost predicate IsLife(trace: seq<Daemon>, steps: seq<LifeStep>) {
    && |trace| == |steps| + 1
    && Logged(trace[0].db) && 0 !in trace[0].db.attempts && trace[0].counter == Seed(trace[0].db)
    && forall i :: 0 <= i < |steps| ==> Possible(trace[i], steps[i]) && trace[i + 1] == Lived(trace[i], steps[i])
  }

  /** What every life keeps, even with failed queries: logged intents and positive identifiers. */
  ghost predicate Tidy(d: Daemon) {
    Logged(d.db) && 0 !in d.db.attempts && d.counter >= 1
  }

  lemma {:induction false} LifeStaysTidy(trace: seq<Daemon>, steps: seq<LifeStep>, n: nat)
    requires IsLife(trace, steps) && n <= |steps|
    ensures Tidy(trace[n])
    decreases n
  {
    hide Seed;
    if n > 0 {
      LifeStaysTidy(trace, steps, n - 1);
      assert Possible(trace[n - 1], steps[n - 1]) && trace[n] == Lived(trace[n - 1], steps[n - 1]);
    }
  }

  ghost predicate Ahead(d: Daemon) {
    forall a :: a in d.db.attempts ==> a < d.counter
  }

  /**
   Right after a restart the counter is above all stored attempts exactly if the query worked or nothing was
   stored.
   */
  lemma RestartIsAheadExactly(trace: seq<Daemon>, steps: seq<LifeStep>, n: nat)
    requires IsLife(trace, steps) && n < |steps| && steps[n].Restart?
    ensures Ahead(trace[n + 1]) <==> !steps[n].fault || trace[n].db.attempts == map[]
  {
    hide Seed;
    LifeStaysTidy(trace, steps, n);
    assert trace[n + 1] == Lived(trace[n], steps[n]);
    if a :| a in trace[n].db.attempts {
      assert a >= 1;
    } else {
      assert trace[n].db.attempts == map[];
    }
  }

  /** Every failed query so far happened before the first attempt was stored. */
  ghost predicate HarmlessSoFar(trace: seq<Daemon>, steps: seq<LifeStep>, n: nat)
    requires n <= |steps| < |trace|
  {
    forall i :: 0 <= i < n && steps[i] == Restart(true) ==> trace[i].db.attempts == map[]
  }

  lemma {:induction false} CounterStaysAhead(trace: seq<Daemon>, steps: seq<LifeStep>, n: nat)
    requires IsLife(trace, steps) && n <= |steps| && HarmlessSoFar(trace, steps, n)
    ensures Ahead(trace[n])
    decreases n
  {
    hide Seed;
    if n > 0 {
      CounterStaysAhead(trace, steps, n - 1);
      assert Possible(trace[n - 1], steps[n - 1]) && trace[n] == Lived(trace[n - 1], steps[n - 1]);
      if steps[n - 1].Restart? {
        RestartIsAheadExactly(trace, steps, n - 1);
      }
    }
  }

  /** The claimed identifier is new: above every stored one, without intents, and its attempt is running. */
  ghost predicate NewClaim(before: Tables, after: Tables, id: nat, q: Request) {
    && (forall a :: a in before.attempts ==> a < id)
    && (forall op :: !HasKey(after.intents, id, op))
    && q.jobId in after.jobs
    && id in after.attempts && after.attempts[id] == AttemptRow(q.jobId, q.worker, RUNNING, q.now + q.ttl)
  }

  lemma ClaimIsNew(d: Daemon, q: Request)
    requires Logged(d.db) && Ahead(d) && Claimed(d.db, d.counter, q).1.Some?
    ensures NewClaim(d.db, Claimed(d.db, d.counter, q).0, Claimed(d.db, d.counter, q).1.value, q)
  {
  }

  /** Across restarts and crashes every claim is new, as long as no query failed with attempts in the store. */
  lemma ClaimsAreNew(trace: seq<Daemon>, steps: seq<LifeStep>, n: nat, q: Request)
    requires IsLife(trace, steps) && n <= |steps| && HarmlessSoFar(trace, steps, n)
    requires Claimed(trace[n].db, trace[n].counter, q).1.Some?
    ensures
      var (t, claimed) := Claimed(trace[n].db, trace[n].counter, q);
      NewClaim(trace[n].db, t, claimed.value, q) && Logged(t)
  {
    hide NewClaim;
    CounterStaysAhead(trace, steps, n);
    LifeStaysTidy(trace, steps, n);
    ClaimIsNew(trace[n], q);
  }

  /** The first claim after a restart is new exactly if the query worked or nothing was stored. */
  lemma FirstClaimIsNewExactly(trace: seq<Daemon>, steps: seq<LifeStep>, n: nat, q: Request)
    requires IsLife(trace, steps) && n < |steps| && steps[n].Restart?
    requires Claimed(trace[n + 1].db, trace[n + 1].counter, q).1.Some?
    ensures
      var (t, claimed) := Claimed(trace[n + 1].db, trace[n + 1].counter, q);
      NewClaim(trace[n + 1].db, t, claimed.value, q) <==> !steps[n].fault || trace[n].db.attempts == map[]
  {
    RestartIsAheadExactly(trace, steps, n);
    LifeStaysTidy(trace, steps, n + 1);
    if Ahead(trace[n + 1]) {
      ClaimIsNew(trace[n + 1], q);
    }
  }

  /** A claim that hits a stored identifier revives that row, and the intents under it block the new ones. */
  lemma RevivedClaim(d: Daemon, q: Request, row: Intent)
    requires Claimed(d.db, d.counter, q).1.Some? && d.counter in d.db.attempts && row in d.db.intents
    requires row.attempt == d.counter
    ensures
      var t := Claimed(d.db, d.counter, q).0;
      && t.attempts.Keys == d.db.attempts.Keys && t.attempts[d.counter].jobId == d.db.attempts[d.counter].jobId
      && forall intent: Intent :: intent.attempt == d.counter && intent.op == row.op ==> CommitIntent(t, intent).None?
  {
    var i :| 0 <= i < |d.db.intents| && d.db.intents[i] == row;
    assert KeyIs(d.db.intents[i], d.counter, row.op);
  }

  /** A life that ends in a failed query, after which the claim gets an identifier that has intents already. */
  ghost predicate ReusesAttempt(trace: seq<Daemon>, steps: seq<LifeStep>, q: Request) {
    && IsLife(trace, steps) && steps != [] && steps[|steps| - 1] == Restart(true)
    && var d := trace[|steps|];
      Claimed(d.db, d.counter, q).1 == Some(1) && 1 in d.db.attempts && HasKey(d.db.intents, 1, 1)
  }

  /** A life in which that happens: claim, store an intent, restart with a failed query, claim again. */
  lemma FailedQueryReusesAttempt()
    ensures exists trace, steps, q :: ReusesAttempt(trace, steps, q)
  {
    var q := Request(0, 7, 300, 0, false, false);
    var d0 := Daemon(Tables(map[7 := JobRow("ADMITTED", 0)], map[], [], map[], map[]), 1);
    SeedIsMax(d0.db, 0);
    var d1 := Lived(d0, Claim(q));
    var row := Intent(7, 1, 1, "t", "f", Identity(1, 2), 5, RemoveFile, Committed, 0, 0);
    var work := d1.db.(intents := [row]);
    var d2 := Lived(d1, Work(work));
    var d3 := Lived(d2, Restart(true));
    assert 1 in d1.db.attempts;
    assert KeyIs(d3.db.intents[0], 1, 1);
    var trace, steps := [d0, d1, d2, d3], [Claim(q), Work(work), Restart(true)];
    assert IsLife(trace, steps) by {
      forall i | 0 <= i < |steps| ensures Possible(trace[i], steps[i]) && trace[i + 1] == Lived(trace[i], steps[i]) {
      }
    }
    assert ReusesAttempt(trace, steps, q);
  }

  // ------------------------------------------------------------------ Runs and recoveries are orderly

  lemma SetStateKeepsLogged(t: Tables, attempt: nat, op: nat, state: IntentState)
    ensures Logged(t) ==> Logged(SetIntentState(t, attempt, op, state))
  {
  }

  lemma StepIsOrderly(job: Job, env: seq<OpEnv>, s: State, cached: bool)
    requires WellFormed(job, env, s) && job.attempt in s.db.attempts
    ensures Orderly(s.db, Step(job, env, s, cached).db)
  {
    hide Step, SetIntentState;
    var s' := Step(job, env, s, cached);
    StepKeepsOtherTables(job, env, s, cached);
    StepWrites(job, env, s, cached);
    StepMoves(job, env, s, cached);
    if s.i < |job.plan.operations| {
      var op := job.plan.operations[s.i].id;
      if s.phase.IntentStored? && s'.phase.MarkedMutating? {
        SetStateKeepsLogged(s.db, job.attempt, op, Mutating);
      } else if s.phase.Mutated? && s'.phase.Resolved? {
        var state :| s'.db == SetIntentState(s.db, job.attempt, op, state);
        SetStateKeepsLogged(s.db, job.attempt, op, state);
      }
    }
  }

  /** An execution under a stored attempt, cut off by a crash after any number of steps. */
  lemma {:induction false} RunIsOrderly(job: Job, env: seq<OpEnv>, tree0: Tree, db0: Tables, n: nat)
    requires |env| == |job.plan.operations| && job.attempt in db0.attempts
    ensures Orderly(db0, Run(job, env, Init(tree0, db0), true, n).db)
    decreases n
  {
    hide Step;
    if n > 0 {
      RunIsOrderly(job, env, tree0, db0, n - 1);
      StepIsOrderly(job, env, Run(job, env, Init(tree0, db0), true, n - 1), true);
    }
  }

  /** Recovery, finished or cut short by a store error: whatever parts of whichever attempts it settled. */
  lemma RecoveryIsOrderly(
    survey: Survey, t0: Tables, t: Tables, attempts: set<nat>, intents: set<nat>, jobs: set<nat>)
    requires SettledParts(survey, t0, t, attempts, intents, jobs)
    ensures Orderly(t0, t)
  {
    hide RowsOf, AttemptVerdict, JobsSettled, OutcomesRecorded, SettledRow, Loadable;
    SettledKeys(survey, t0, t, intents);
  }

  /** Recovery, cut off by a crash between any two of its statements. */
  lemma CrashedRecoveryIsOrderly(survey: Survey, t0: Tables, t: Tables, order: seq<nat>, k: nat, n: nat)
    requires Recoverable(t0) && IsOrder(order, RunningAttempts(t0)) && CrashPoint(survey, t0, order, t, k, n)
    ensures Orderly(t0, t)
  {
    hide Crashed, SettleInOrder, RowsOf, LoadableTarget, UniqueKeys, AttemptVerdict, JobsSettled, OutcomesWithin;
    hide OutcomesStoredFor, RowsReached, SettledRow;
    PrefixOfOrder(order, k, RunningAttempts(t0));
    CrashIsInterruption(survey, t0, order[..k], order[k], n);
    var marked := n == 2 * |RowsOf(t0.intents, order[k])| + 1;
    var ops :| Interrupted(survey, t0, t, Elements(order[..k]), order[k], ops, marked);
    ReachedStatesOnly(survey, t0.intents, t.intents, Elements(order[..k]), order[k], ops);
    StateKeepsKey(t0.intents, t.intents);
  }

  // ------------------------------------------------------------------ The unique index never rejects

  ghost predicate NamedBefore(job: Job, i: nat, op: nat) {
    exists k :: 0 <= k < i && k < |job.plan.operations| && job.plan.operations[k].id == op
  }

  /** Every intent of this attempt belongs to an operation that the run has already come to. */
  ghost predicate KeysInv(job: Job, s: State) {
    forall r :: 0 <= r < |s.db.intents| && s.db.intents[r].attempt == job.attempt ==>
      NamedBefore(job, if s.phase.AtOp? || s.phase.Done? then s.i else s.i + 1, s.db.intents[r].op)
  }

  lemma StepKeepsKeysInv(job: Job, env: seq<OpEnv>, s: State, cached: bool)
    requires WellFormed(job, env, s) && KeysInv(job, s)
    ensures KeysInv(job, Step(job, env, s, cached))
  {
    hide Step, SetIntentState;
    var s' := Step(job, env, s, cached);
    StepMoves(job, env, s, cached);
    StepWrites(job, env, s, cached);
    if s.i < |job.plan.operations| {
      var op := job.plan.operations[s.i].id;
      if s.phase.IntentStored? && s'.phase.MarkedMutating? {
        SetStateKeepsKeys(s.db, job.attempt, op, Mutating);
      } else if s.phase.Mutated? && s'.phase.Resolved? {
        var state :| s'.db == SetIntentState(s.db, job.attempt, op, state);
        SetStateKeepsKeys(s.db, job.attempt, op, state);
      }
    }
    forall r | 0 <= r < |s'.db.intents| && s'.db.intents[r].attempt == job.attempt
      ensures NamedBefore(job, if s'.phase.AtOp? || s'.phase.Done? then s'.i else s'.i + 1, s'.db.intents[r].op)
    {
      if r < |s.db.intents| {
        assert s.db.intents[r].attempt == job.attempt && s.db.intents[r].op == s'.db.intents[r].op;
      }
    }
  }

  lemma {:induction false} KeysInvAlways(job: Job, env: seq<OpEnv>, tree0: Tree, db0: Tables, n: nat)
    requires |env| == |job.plan.operations| && forall op :: !HasKey(db0.intents, job.attempt, op)
    ensures KeysInv(job, Run(job, env, Init(tree0, db0), true, n))
    decreases n
  {
    hide Step;
    if n > 0 {
      KeysInvAlways(job, env, tree0, db0, n - 1);
      StepKeepsKeysInv(job, env, Run(job, env, Init(tree0, db0), true, n - 1), true);
    } else {
      forall r | 0 <= r < |db0.intents| ensures db0.intents[r].attempt != job.attempt {
        assert KeyIs(db0.intents[r], db0.intents[r].attempt, db0.intents[r].op);
        assert HasKey(db0.intents, db0.intents[r].attempt, db0.intents[r].op);
      }
    }
  }

  /**
   For a valid plan under an attempt without intents, as every claimed one is: whenever an operation
   passes the gates, its intent is accepted, so a stored-intent refusal can only be a database fault.
   */
  lemma IntentIsNeverRejected(job: Job, env: seq<OpEnv>, tree0: Tree, db0: Tables, n: nat)
    requires |env| == |job.plan.operations| && ValidPlan(job.plan.operations)
    requires (forall op :: !HasKey(db0.intents, job.attempt, op)) && job.plan.jobId in db0.jobs
    ensures
      var s := Run(job, env, Init(tree0, db0), true, n);
      s.phase.AtOp? && s.i < |job.plan.operations| ==>
        var op := job.plan.operations[s.i];
        forall d :: CommitIntent(s.db, IntentFor(job, op, d)).Some?
  {
    hide Run;
    var s := Run(job, env, Init(tree0, db0), true, n);
    KeysInvAlways(job, env, tree0, db0, n);
    JobsStay(job, env, tree0, db0, n);
    if s.phase.AtOp? && s.i < |job.plan.operations| {
      forall r | 0 <= r < |s.db.intents| ensures !KeyIs(s.db.intents[r], job.attempt, job.plan.operations[s.i].id) {
        assert s.db.intents[r].attempt == job.attempt ==> NamedBefore(job, s.i, s.db.intents[r].op);
      }
    }
  }

  lemma {:induction false} JobsStay(job: Job, env: seq<OpEnv>, tree0: Tree, db0: Tables, n: nat)
    requires |env| == |job.plan.operations|
    ensures Run(job, env, Init(tree0, db0), true, n).db.jobs == db0.jobs
    decreases n
  {
    hide Step;
    if n > 0 {
      JobsStay(job, env, tree0, db0, n - 1);
      StepKeepsOtherTables(job, env, Run(job, env, Init(tree0, db0), true, n - 1), true);
    }
  }
}
