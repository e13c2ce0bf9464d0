/**
 Recovery over all attempts that a crash left running, in any order, with the store errors that cut it
 short; after one that went through, a second finds nothing to do.
 */
module Reconciliation {
  import opened Domain
  import opened Paths
  import opened Filesystem
  import opened Verification
  import opened Durability
  import opened Recovery

  /** All intents of the attempt are settled as deleted, judged by the tables before recovery. */
  ghost predicate FullyDeleted(survey: Survey, t: Tables, attempt: nat) {
    Loadable(t.intents, attempt) && AllDeleted(survey, RowsOf(t.intents, attempt))
  }

  ghost function DeletedIn(survey: Survey, t: Tables, attempts: set<nat>): set<nat> {
    set a | a in attempts && FullyDeleted(survey, t, a)
  }

  lemma CountNext(survey: Survey, t: Tables, done: set<nat>, a: nat)
    requires a !in done && Loadable(t.intents, a)
    ensures |DeletedIn(survey, t, done + {a})|
      == |DeletedIn(survey, t, done)| + (if AllDeleted(survey, RowsOf(t.intents, a)) then 1 else 0)
  {
    hide RowsOf, AllDeleted;
    var before := DeletedIn(survey, t, done);
    assert DeletedIn(survey, t, done + {a}) == if FullyDeleted(survey, t, a) then before + {a} else before;
  }

  ghost predicate AttemptsSettled(survey: Survey, t0: Tables, t: Tables, done: set<nat>) {
    && t.attempts.Keys == t0.attempts.Keys
    && forall a :: a in t0.attempts ==>
      t.attempts[a] == if a in done && Loadable(t0.intents, a)
        then t0.attempts[a].(state := AttemptVerdict(survey, RowsOf(t0.intents, a))) else t0.attempts[a]
  }

  ghost predicate IntentsSettled(survey: Survey, t0: Tables, t: Tables, done: set<nat>) {
    && |t.intents| == |t0.intents|
    && forall i :: 0 <= i < |t0.intents| ==>
      t.intents[i] == if t0.intents[i].attempt in done then SettledRow(survey, t0.intents[i]) else t0.intents[i]
  }

  /** The job row is the one that settling attempt `a` writes. */
  ghost predicate WritesJob(survey: Survey, t0: Tables, a: nat, j: nat, row: JobRow) {
    && a in t0.attempts && t0.attempts[a].jobId == j && Loadable(t0.intents, a)
    && var rows := RowsOf(t0.intents, a);
      row == JobRow(JobVerdict(survey, rows), Reclaimed(survey, rows))
  }

  /** A job row changes only to what one of its settled attempts writes. */
  ghost predicate JobsSettled(survey: Survey, t0: Tables, t: Tables, done: set<nat>) {
    && t.jobs.Keys == t0.jobs.Keys
    && forall j :: j in t0.jobs ==>
      if exists a :: a in done && a in t0.attempts && t0.attempts[a].jobId == j
      then exists a :: a in done && WritesJob(survey, t0, a, j, t.jobs[j])
      else t.jobs[j] == t0.jobs[j]
  }

  ghost predicate OutcomeOf(survey: Survey, t0: Tables, a: nat, key: (nat, nat), row: OperationRow) {
    && a in t0.attempts && Loadable(t0.intents, a)
    && exists r :: r in RowsOf(t0.intents, a) && key == (t0.attempts[a].jobId, r.op) && RecordedAs(survey, r, row)
  }

  /** The outcome is that of an intent of one of these attempts. */
  ghost predicate OutcomeOfAny(survey: Survey, t0: Tables, done: set<nat>, key: (nat, nat), row: OperationRow) {
    exists a :: a in done && OutcomeOf(survey, t0, a, key, row)
  }

  /** Outcomes are added and replaced only by those of these attempts. */
  ghost predicate OutcomesWithin(survey: Survey, t0: Tables, t: Tables, done: set<nat>) {
    && t0.operations.Keys <= t.operations.Keys
    && forall key :: key in t.operations ==>
      || (key in t0.operations && t.operations[key] == t0.operations[key])
      || OutcomeOfAny(survey, t0, done, key, t.operations[key])
  }

  /** Every intent of attempt `a` that can be recorded has an outcome of one of these attempts under its key. */
  ghost predicate OutcomesStoredFor(survey: Survey, t0: Tables, t: Tables, done: set<nat>, a: nat) {
    a in t0.attempts && Loadable(t0.intents, a) && t0.attempts[a].jobId in t0.jobs ==>
      forall r :: r in RowsOf(t0.intents, a) && Recordable(survey, r) ==>
        var key := (t0.attempts[a].jobId, r.op);
        key in t.operations && OutcomeOfAny(survey, t0, done, key, t.operations[key])
  }

  /** The outcomes of exactly these attempts are recorded. */
  ghost predicate OutcomesRecorded(survey: Survey, t0: Tables, t: Tables, done: set<nat>) {
    OutcomesWithin(survey, t0, t, done) && forall a :: a in done ==> OutcomesStoredFor(survey, t0, t, done, a)
  }

  /**
   `t` is `t0` with the attempt rows, the intents and outcomes, and the job rows of these attempts settled, in
   any order.
   */
  ghost predicate SettledParts(
    survey: Survey, t0: Tables, t: Tables, rows: set<nat>, intents: set<nat>, jobs: set<nat>) {
    && t.leases == t0.leases
    && AttemptsSettled(survey, t0, t, rows)
    && IntentsSettled(survey, t0, t, intents)
    && JobsSettled(survey, t0, t, jobs)
    && OutcomesRecorded(survey, t0, t, intents)
  }

  /** `t` is `t0` with the attempts in `done` settled completely. */
  ghost predicate SettledSoFar(survey: Survey, t0: Tables, t: Tables, done: set<nat>) {
    SettledParts(survey, t0, t, done, done, done)
  }

  /** A store error at attempt `a` ended the recovery after the attempts in `done`: how far `a` itself came. */
  ghost predicate CutShortAt(survey: Survey, t0: Tables, t: Tables, done: set<nat>, a: nat) {
    && done <= RunningAttempts(t0) && a in RunningAttempts(t0) && a !in done
    && if a in survey.store.load then SettledParts(survey, t0, t, done, done, done)
      else if a in survey.store.attempt then SettledParts(survey, t0, t, done, done + {a}, done)
      else a in survey.store.job && SettledParts(survey, t0, t, done + {a}, done + {a}, done)
  }

  ghost predicate CutShort(survey: Survey, t0: Tables, t: Tables) {
    (survey.store.list && t == t0) || exists done, a :: CutShortAt(survey, t0, t, done, a)
  }

  lemma {:induction false} RowsOfFrame(a: seq<Intent>, b: seq<Intent>, attempt: nat)
    requires |a| == |b| && Loadable(a, attempt)
    requires forall i :: 0 <= i < |a| ==> a[i].attempt == b[i].attempt && (a[i].attempt == attempt ==> a[i] == b[i])
    ensures Loadable(b, attempt) && RowsOf(a, attempt) == RowsOf(b, attempt)
  {
    hide Reload, LoadableTarget;
    if a != [] {
      var n := |a| - 1;
      RowsOfFrame(a[..n], b[..n], attempt);
    }
  }

  lemma SettledKeys(survey: Survey, t0: Tables, t: Tables, done: set<nat>)
    requires IntentsSettled(survey, t0, t, done)
    ensures forall i :: 0 <= i < |t.intents| ==>
      t.intents[i].attempt == t0.intents[i].attempt && t.intents[i].op == t0.intents[i].op
    ensures UniqueKeys(t0.intents) ==> UniqueKeys(t.intents)
  {
    hide Settled, Reload, LoadableTarget;
  }

  lemma SettleNextIntents(survey: Survey, t0: Tables, t: Tables, done: set<nat>, a: nat)
    requires UniqueKeys(t0.intents) && Loadable(t0.intents, a)
    requires IntentsSettled(survey, t0, t, done) && a !in done
    ensures UniqueKeys(t.intents) && Loadable(t.intents, a) && RowsOf(t.intents, a) == RowsOf(t0.intents, a)
  {
    hide SettledRow, LoadableTarget, RowsOf, UniqueKeys;
    SettledKeys(survey, t0, t, done);
    RowsOfFrame(t0.intents, t.intents, a);
  }

  lemma SettleNextRows(survey: Survey, t0: Tables, t: Tables, t': Tables, done: set<nat>, a: nat)
    requires IntentsSettled(survey, t0, t, done) && a !in done
    requires |t'.intents| == |t.intents|
    requires forall i :: 0 <= i < |t.intents| ==>
      t'.intents[i] == if t.intents[i].attempt == a then SettledRow(survey, t.intents[i]) else t.intents[i]
    ensures IntentsSettled(survey, t0, t', done + {a})
  {
    hide SettledRow;
    assert forall i :: 0 <= i < |t.intents| ==>
      t.intents[i].attempt == t0.intents[i].attempt by { SettledKeys(survey, t0, t, done); }
  }

  lemma SettleNextJobs(survey: Survey, t0: Tables, t: Tables, t': Tables, done: set<nat>, a: nat)
    requires JobsSettled(survey, t0, t, done) && a in t0.attempts && Loadable(t0.intents, a)
    requires
      var rows, j := RowsOf(t0.intents, a), t0.attempts[a].jobId;
      t'.jobs == if j in t.jobs then t.jobs[j := JobRow(JobVerdict(survey, rows), Reclaimed(survey, rows))] else t.jobs
    ensures JobsSettled(survey, t0, t', done + {a})
  {
    hide RowsOf, Loadable, JobVerdict, Reclaimed;
    forall j | j in t0.jobs
      ensures if exists b :: b in done + {a} && b in t0.attempts && t0.attempts[b].jobId == j
        then exists b :: b in done + {a} && WritesJob(survey, t0, b, j, t'.jobs[j])
        else t'.jobs[j] == t0.jobs[j]
    {
      if t0.attempts[a].jobId == j {
        assert WritesJob(survey, t0, a, j, t'.jobs[j]);
      } else if b :| b in done && WritesJob(survey, t0, b, j, t.jobs[j]) {
        assert WritesJob(survey, t0, b, j, t'.jobs[j]);
      }
    }
  }

  lemma NextOutcome(
    survey: Survey, t0: Tables, t: Tables, t': Tables, done: set<nat>, a: nat, rows: seq<Intent>, key: (nat, nat))
    requires a in t0.attempts && Loadable(t0.intents, a) && forall r :: r in rows ==> r in RowsOf(t0.intents, a)
    requires RecordsFrom(survey, t.operations, t'.operations, t0.attempts[a].jobId, rows) && key in t'.operations
    ensures (key in t.operations && t'.operations[key] == t.operations[key])
      || OutcomeOfAny(survey, t0, done + {a}, key, t'.operations[key])
  {
    hide RowsOf, Loadable, RecordOf;
    if !(key in t.operations && t'.operations[key] == t.operations[key]) {
      assert OutcomeOf(survey, t0, a, key, t'.operations[key]);
    }
  }

  lemma OutcomeOfMore(survey: Survey, t0: Tables, done: set<nat>, more: set<nat>, key: (nat, nat), row: OperationRow)
    requires OutcomeOfAny(survey, t0, done, key, row) && done <= more
    ensures OutcomeOfAny(survey, t0, more, key, row)
  {
  }

  /** Recording some rows of attempt `a` keeps the outcomes within the attempts and `a`. */
  lemma NextOutcomesWithin(
    survey: Survey, t0: Tables, t: Tables, t': Tables, done: set<nat>, a: nat, rows: seq<Intent>)
    requires OutcomesWithin(survey, t0, t, done) && a in t0.attempts && Loadable(t0.intents, a)
    requires forall r :: r in rows ==> r in RowsOf(t0.intents, a)
    requires RecordsFrom(survey, t.operations, t'.operations, t0.attempts[a].jobId, rows)
    ensures OutcomesWithin(survey, t0, t', done + {a})
  {
    hide RowsOf, Loadable, RecordOf, OutcomeOfAny;
    forall key | key in t'.operations
      ensures (key in t0.operations && t'.operations[key] == t0.operations[key])
        || OutcomeOfAny(survey, t0, done + {a}, key, t'.operations[key])
    {
      NextOutcome(survey, t0, t, t', done, a, rows, key);
      if key in t.operations && OutcomeOfAny(survey, t0, done, key, t.operations[key]) {
        OutcomeOfMore(survey, t0, done, done + {a}, key, t.operations[key]);
      }
    }
  }

  /** What was stored for an earlier attempt is still stored, or replaced by an outcome of `a`. */
  lemma NextOutcomesKept(
    survey: Survey, t0: Tables, t: Tables, t': Tables, done: set<nat>, a: nat, rows: seq<Intent>, b: nat)
    requires OutcomesStoredFor(survey, t0, t, done, b) && a in t0.attempts && Loadable(t0.intents, a)
    requires forall r :: r in rows ==> r in RowsOf(t0.intents, a)
    requires RecordsFrom(survey, t.operations, t'.operations, t0.attempts[a].jobId, rows)
    ensures OutcomesStoredFor(survey, t0, t', done + {a}, b)
  {
    hide RowsOf, LoadableTarget, RecordOf, OutcomeOfAny;
    if b in t0.attempts && Loadable(t0.intents, b) && t0.attempts[b].jobId in t0.jobs {
      forall r | r in RowsOf(t0.intents, b) && Recordable(survey, r)
        ensures
          var key := (t0.attempts[b].jobId, r.op);
          key in t'.operations && OutcomeOfAny(survey, t0, done + {a}, key, t'.operations[key])
      {
        var key := (t0.attempts[b].jobId, r.op);
        NextOutcome(survey, t0, t, t', done, a, rows, key);
        OutcomeOfMore(survey, t0, done, done + {a}, key, t.operations[key]);
      }
    }
  }

  lemma NextOutcomesStored(survey: Survey, t0: Tables, t': Tables, done: set<nat>, a: nat)
    requires a in t0.attempts && Loadable(t0.intents, a)
    requires t0.attempts[a].jobId in t0.jobs ==>
      RecordsAll(survey, t'.operations, t0.attempts[a].jobId, RowsOf(t0.intents, a))
    ensures OutcomesStoredFor(survey, t0, t', done + {a}, a)
  {
    hide RowsOf, LoadableTarget, RecordOf;
    if t0.attempts[a].jobId in t0.jobs {
      forall r | r in RowsOf(t0.intents, a) && Recordable(survey, r)
        ensures
          var key := (t0.attempts[a].jobId, r.op);
          key in t'.operations && OutcomeOfAny(survey, t0, done + {a}, key, t'.operations[key])
      {
        assert RecordedFor(survey, t'.operations, t0.attempts[a].jobId, RowsOf(t0.intents, a), r);
        assert OutcomeOf(survey, t0, a, (t0.attempts[a].jobId, r.op), t'.operations[(t0.attempts[a].jobId, r.op)]);
      }
    }
  }

  lemma SettleNextOutcomes(survey: Survey, t0: Tables, t: Tables, t': Tables, done: set<nat>, a: nat)
    requires OutcomesRecorded(survey, t0, t, done) && a in t0.attempts && Loadable(t0.intents, a)
    requires RecordsFrom(survey, t.operations, t'.operations, t0.attempts[a].jobId, RowsOf(t0.intents, a))
    requires t0.attempts[a].jobId in t0.jobs ==>
      RecordsAll(survey, t'.operations, t0.attempts[a].jobId, RowsOf(t0.intents, a))
    ensures OutcomesRecorded(survey, t0, t', done + {a})
  {
    hide RowsOf, LoadableTarget, RecordsFrom, RecordsAll, OutcomesWithin, OutcomesStoredFor;
    var rows := RowsOf(t0.intents, a);
    NextOutcomesWithin(survey, t0, t, t', done, a, rows);
    NextOutcomesStored(survey, t0, t', done, a);
    forall b | b in done ensures OutcomesStoredFor(survey, t0, t', done + {a}, b) {
      NextOutcomesKept(survey, t0, t, t', done, a, rows, b);
    }
  }

  lemma SettleNextAttempts(survey: Survey, t0: Tables, t: Tables, t': Tables, done: set<nat>, a: nat)
    requires AttemptsSettled(survey, t0, t, done) && a in t0.attempts && a !in done && Loadable(t0.intents, a)
    requires t'.attempts == t.attempts[a := t.attempts[a].(state := AttemptVerdict(survey, RowsOf(t0.intents, a)))]
    ensures AttemptsSettled(survey, t0, t', done + {a})
  {
    hide RowsOf, LoadableTarget, AttemptVerdict;
  }

  /** The attempt is still as it was, and so are its intents. */
  lemma NextIsUntouched(survey: Survey, t0: Tables, t: Tables, done: set<nat>, a: nat)
    requires UniqueKeys(t0.intents) && Loadable(t0.intents, a) && a in t0.attempts && a !in done
    requires SettledSoFar(survey, t0, t, done)
    ensures a in t.attempts && t.attempts[a] == t0.attempts[a] && t.jobs.Keys == t0.jobs.Keys
    ensures UniqueKeys(t.intents) && Loadable(t.intents, a) && RowsOf(t.intents, a) == RowsOf(t0.intents, a)
  {
    hide RowsOf, UniqueKeys, Loadable, AttemptsSettled, IntentsSettled, JobsSettled, OutcomesRecorded;
    AttemptKept(survey, t0, t, done, a);
    SettleNextIntents(survey, t0, t, done, a);
    JobsKeptKeys(survey, t0, t, done);
  }

  /** After the intents of one more attempt. */
  lemma AfterIntents(survey: Survey, t0: Tables, t: Tables, done: set<nat>, a: nat)
    requires UniqueKeys(t0.intents) && Loadable(t0.intents, a) && a in t0.attempts && a !in done
    requires SettledSoFar(survey, t0, t, done) && a in t.attempts && Loadable(t.intents, a)
    ensures
      var t1 := SettleIntents(survey, t, a);
      && SettledParts(survey, t0, t1, done, done + {a}, done)
      && t1 == t.(intents := t1.intents, operations := t1.operations)
  {
    hide SettledRow, RowsOf, UniqueKeys, SettleIntents, RecordsFrom, RecordsAll, Loadable;
    hide AttemptsSettled, IntentsSettled, JobsSettled, OutcomesRecorded;
    NextIsUntouched(survey, t0, t, done, a);
    SettleIntentsShape(survey, t, a);
    var t1 := SettleIntents(survey, t, a);
    SettleNextRows(survey, t0, t, t1, done, a);
    SettleNextOutcomes(survey, t0, t, t1, done, a);
    PartsFrame(survey, t0, t, t1, done, a);
  }

  /** After its attempt row as well. */
  lemma AfterMark(survey: Survey, t0: Tables, t: Tables, done: set<nat>, a: nat)
    requires UniqueKeys(t0.intents) && Loadable(t0.intents, a) && a in t0.attempts && a !in done
    requires SettledSoFar(survey, t0, t, done) && a in t.attempts && Loadable(t.intents, a)
    ensures
      var t2 := SetAttemptState(SettleIntents(survey, t, a), a, AttemptVerdict(survey, RowsOf(t.intents, a)));
      SettledParts(survey, t0, t2, done + {a}, done + {a}, done) && t2.jobs == t.jobs
  {
    hide SettledRow, RowsOf, UniqueKeys, SettleIntents, AttemptVerdict, LoadableTarget;
    hide AttemptsSettled, IntentsSettled, JobsSettled, OutcomesRecorded;
    NextIsUntouched(survey, t0, t, done, a);
    AfterIntents(survey, t0, t, done, a);
    var t1 := SettleIntents(survey, t, a);
    var t2 := SetAttemptState(t1, a, AttemptVerdict(survey, RowsOf(t.intents, a)));
    SettleNextAttempts(survey, t0, t, t2, done, a);
    PartsFrame(survey, t0, t1, t2, done + {a}, a);
    PartsFrame(survey, t0, t1, t2, done, a);
  }

  /** What one more attempt does: it is settled, or recovery ends there. */
  lemma SettleNext(survey: Survey, t0: Tables, t: Tables, done: set<nat>, a: nat)
    requires UniqueKeys(t0.intents) && Loadable(t0.intents, a) && a in t0.attempts && a !in done
    requires SettledSoFar(survey, t0, t, done)
    ensures a in t.attempts && Loadable(t.intents, a) && RowsOf(t.intents, a) == RowsOf(t0.intents, a)
    ensures
      var (t', ok) := SettleAttempt(survey, t, a);
      if ok then SettledSoFar(survey, t0, t', done + {a})
      else if a in survey.store.load then SettledParts(survey, t0, t', done, done, done)
      else if a in survey.store.attempt then SettledParts(survey, t0, t', done, done + {a}, done)
      else a in survey.store.job && SettledParts(survey, t0, t', done + {a}, done + {a}, done)
  {
    hide SettledRow, RowsOf, UniqueKeys, SettleIntents, AttemptVerdict, JobVerdict, Reclaimed, LoadableTarget;
    hide AttemptsSettled, IntentsSettled, JobsSettled, OutcomesRecorded;
    NextIsUntouched(survey, t0, t, done, a);
    AfterIntents(survey, t0, t, done, a);
    AfterMark(survey, t0, t, done, a);
    var (t', ok) := SettleAttempt(survey, t, a);
    if ok {
      var t2 := SetAttemptState(SettleIntents(survey, t, a), a, AttemptVerdict(survey, RowsOf(t.intents, a)));
      SettleNextJobs(survey, t0, t, t', done, a);
      PartsFrame(survey, t0, t2, t', done + {a}, a);
    }
  }

  lemma JobsKeptKeys(survey: Survey, t0: Tables, t: Tables, done: set<nat>)
    requires JobsSettled(survey, t0, t, done)
    ensures t.jobs.Keys == t0.jobs.Keys
  {
    hide WritesJob;
  }

  /** Each part depends on its own table only. */
  lemma PartsFrame(survey: Survey, t0: Tables, t: Tables, t': Tables, done: set<nat>, a: nat)
    ensures t'.attempts == t.attempts && AttemptsSettled(survey, t0, t, done) ==> AttemptsSettled(survey, t0, t', done)
    ensures t'.jobs == t.jobs && JobsSettled(survey, t0, t, done) ==> JobsSettled(survey, t0, t', done)
    ensures t'.intents == t.intents && IntentsSettled(survey, t0, t, done) ==> IntentsSettled(survey, t0, t', done)
    ensures t'.operations == t.operations && OutcomesRecorded(survey, t0, t, done) ==>
      OutcomesRecorded(survey, t0, t', done)
  {
    hide SettledRow, RowsOf, AttemptVerdict, OutcomeOfAny, WritesJob;
  }

  lemma NothingRunning(survey: Survey, t0: Tables, t: Tables)
    requires AttemptsSettled(survey, t0, t, RunningAttempts(t0))
    requires forall a :: a in RunningAttempts(t0) ==> Loadable(t0.intents, a)
    ensures RunningAttempts(t) == {}
  {
    hide AttemptVerdict, RowsOf, LoadableTarget;
    forall a | a in t.attempts ensures t.attempts[a].state != RUNNING {
      if a in RunningAttempts(t0) {
        VerdictIsFinal(survey, RowsOf(t0.intents, a));
      }
    }
  }

  // ------------------------------------------------------------------ In some order

  /** One attempt settled, if it is there to be settled. */
  function SettleIfThere(survey: Survey, t: Tables, a: nat): (Tables, bool) {
    if a in t.attempts && Loadable(t.intents, a) then SettleAttempt(survey, t, a) else (t, false)
  }

  /** The attempts settled one after the other, up to the first fatal store error. */
  function SettleInOrder(survey: Survey, t: Tables, order: seq<nat>): (Tables, bool) {
    if order == [] then (t, true)
    else
      var (t1, ok) := SettleInOrder(survey, t, order[..|order| - 1]);
      if ok then SettleIfThere(survey, t1, order[|order| - 1]) else (t1, false)
  }

  /** A list of these attempts, each once. */
  ghost predicate IsOrder(order: seq<nat>, attempts: set<nat>) {
    && (forall a :: a in attempts <==> a in order)
    && forall i, j :: 0 <= i < j < |order| ==> order[i] != order[j]
  }

  lemma SomeOrder(attempts: set<nat>)
    ensures exists order :: IsOrder(order, attempts)
  {
    if attempts == {} {
      assert IsOrder([], attempts);
    } else {
      var a :| a in attempts;
      SomeOrder(attempts - {a});
      var order :| IsOrder(order, attempts - {a});
      assert IsOrder(order + [a], attempts);
    }
  }

  lemma {:induction false} ErrorStays(survey: Survey, t: Tables, order: seq<nat>, rest: seq<nat>)
    requires !SettleInOrder(survey, t, order).1
    ensures SettleInOrder(survey, t, order + rest) == SettleInOrder(survey, t, order)
    decreases |rest|
  {
    if rest == [] {
      assert order + rest == order;
    } else {
      var all := order + rest;
      assert all[..|all| - 1] == order + rest[..|rest| - 1];
      ErrorStays(survey, t, order, rest[..|rest| - 1]);
    }
  }

  lemma OneMoreInOrder(survey: Survey, t: Tables, order: seq<nat>, a: nat)
    requires SettleInOrder(survey, t, order).1
    ensures SettleInOrder(survey, t, order + [a]) == SettleIfThere(survey, SettleInOrder(survey, t, order).0, a)
  {
    assert (order + [a])[..|order|] == order;
  }

  /** Tables that can be recovered: unique keys, and targets that can be loaded back. */
  ghost predicate Recoverable(t: Tables) {
    UniqueKeys(t.intents) && forall a :: a in RunningAttempts(t) ==> Loadable(t.intents, a)
  }

  ghost function Elements(order: seq<nat>): set<nat> {
    set a | a in order
  }

  /** What the attempts of an order settle, and what a fatal store error leaves. */
  lemma {:induction false} InOrderSettles(survey: Survey, t0: Tables, order: seq<nat>)
    requires Recoverable(t0) && IsOrder(order, Elements(order)) && Elements(order) <= RunningAttempts(t0)
    ensures
      var (t, ok) := SettleInOrder(survey, t0, order);
      if ok then SettledSoFar(survey, t0, t, Elements(order)) else exists done, a :: CutShortAt(survey, t0, t, done, a)
  {
    hide SettledSoFar, SettledParts, SettleAttempt, UniqueKeys, Loadable;
    if order == [] {
      NothingSettled(survey, t0);
      assert Elements(order) == {};
    } else {
      var n := |order| - 1;
      var front, a := order[..n], order[n];
      assert order == front + [a];
      assert IsOrder(front, Elements(front)) && Elements(order) == Elements(front) + {a} && a !in Elements(front);
      InOrderSettles(survey, t0, front);
      var (t, ok) := SettleInOrder(survey, t0, front);
      if ok {
        SettleNext(survey, t0, t, Elements(front), a);
        if !SettleAttempt(survey, t, a).1 {
          assert CutShortAt(survey, t0, SettleAttempt(survey, t, a).0, Elements(front), a);
        }
      }
    }
  }

  /**
   Startup recovery. The disk is only read. Without a store error on the way every running attempt is
   settled, in any order, by the verdicts on its own intents; nothing else changes, no attempt stays
   running, and the result counts the attempts whose intents are all verified as deleted. With one,
   None is returned and the attempts before it are settled.
   */
  method ReconcileStartupCrashes(
    store: SqliteStore, disk: Disk, catalog: Catalog, faults: map<(nat, nat), VerifyFaults>, broken: StoreFaults)
    returns (count: Option<nat>)
    requires Recoverable(store.View())
    modifies store
    ensures
      var survey := Survey(disk.tree, disk.roots, catalog, faults, broken);
      var t0, t, running := old(store.View()), store.View(), RunningAttempts(old(store.View()));
      if count.Some? then
        && SettledSoFar(survey, t0, t, running)
        && count.value == |DeletedIn(survey, t0, running)|
        && RunningAttempts(t) == {}
        && (running == {} ==> count == Some(0) && t == t0)
      else CutShort(survey, t0, t)
    ensures
      var survey := Survey(disk.tree, disk.roots, catalog, faults, broken);
      !broken.list ==> RecoversTo(survey, old(store.View()), store.View(), count.Some?)
    ensures UniqueKeys(store.intents)
    ensures broken == SOUND_STORE ==> count.Some?
  {
    hide SettledSoFar, CutShort, SettleAttempt, RowsOf, Loadable, AllDeleted, DeletedIn, UniqueKeys, InProgress;
    hide RecoversTo, IsOrder, SettleInOrder, LoadableTarget;
    ghost var survey := Survey(disk.tree, disk.roots, catalog, faults, broken);
    ghost var t0 := store.View();
    var found := store.GetRunningAttempts(broken.list);
    if found.None? {
      ListFailed(survey, t0);
      return None;
    }
    var todo := found.value;
    ghost var order: seq<nat> := [];
    ghost var done: set<nat> := {};
    ProgressStarts(survey, t0);
    var n := 0;
    while todo != {}
      invariant done !! todo && done + todo == RunningAttempts(t0)
      invariant InProgress(survey, t0, store.View(), order, done, true)
      invariant n == |DeletedIn(survey, t0, done)|
      invariant done == {} ==> store.View() == t0
      decreases todo
    {
      var a :| a in todo;
      ProgressNext(survey, t0, store.View(), order, done, a);
      CountNext(survey, t0, done, a);
      var recovered := SettleRunningAttempt(store, disk, catalog, faults, broken, a, store.attempts[a].jobId);
      if recovered.None? {
        ProgressEnds(survey, t0, store.View(), order + [a], done + {a}, false);
        return None;
      }
      if recovered.value {
        n := n + 1;
      }
      todo, done, order := todo - {a}, done + {a}, order + [a];
    }
    ProgressEnds(survey, t0, store.View(), order, done, true);
    count := Some(n);
  }

  /** The attempts in `done` were settled in this order, the last one without or with a fatal store error. */
  ghost predicate InProgress(survey: Survey, t0: Tables, t: Tables, order: seq<nat>, done: set<nat>, ok: bool) {
    IsOrder(order, done) && SettleInOrder(survey, t0, order) == (t, ok)
  }

  lemma ListFailed(survey: Survey, t0: Tables)
    requires survey.store.list
    ensures CutShort(survey, t0, t0)
  {
  }

  lemma ProgressStarts(survey: Survey, t0: Tables)
    ensures InProgress(survey, t0, t0, [], {}, true) && DeletedIn(survey, t0, {}) == {}
  {
  }

  lemma IsElements(order: seq<nat>, done: set<nat>)
    requires IsOrder(order, done)
    ensures Elements(order) == done
  {
  }

  lemma ProgressNext(survey: Survey, t0: Tables, t: Tables, order: seq<nat>, done: set<nat>, a: nat)
    requires Recoverable(t0) && InProgress(survey, t0, t, order, done, true)
    requires done <= RunningAttempts(t0) && a in RunningAttempts(t0) && a !in done
    ensures a in t.attempts && Loadable(t0.intents, a) && Loadable(t.intents, a)
    ensures RowsOf(t.intents, a) == RowsOf(t0.intents, a)
    ensures
      var (t', ok) := SettleAttempt(survey, t, a);
      InProgress(survey, t0, t', order + [a], done + {a}, ok)
  {
    hide SettledSoFar, SettleAttempt, RowsOf, UniqueKeys, Loadable;
    IsElements(order, done);
    InOrderSettles(survey, t0, order);
    SettleNext(survey, t0, t, done, a);
    OneMoreInOrder(survey, t0, order, a);
  }

  /** At the end of the loop, or at the attempt where a store error ended it. */
  lemma ProgressEnds(survey: Survey, t0: Tables, t: Tables, order: seq<nat>, done: set<nat>, ok: bool)
    requires Recoverable(t0) && InProgress(survey, t0, t, order, done, ok)
    requires done <= RunningAttempts(t0) && (ok ==> done == RunningAttempts(t0))
    ensures RecoversTo(survey, t0, t, ok) && UniqueKeys(t.intents)
    ensures if ok then SettledSoFar(survey, t0, t, done) && RunningAttempts(t) == {}
      else CutShort(survey, t0, t) && survey.store != SOUND_STORE
  {
    hide SettledSoFar, SettledParts, SettleInOrder, UniqueKeys, Loadable, CutShortAt;
    IsElements(order, done);
    InOrderSettles(survey, t0, order);
    if ok {
      FinishedFacts(survey, t0, t);
    } else {
      ErrorInSomeOrder(survey, t0, t, order, RunningAttempts(t0));
      var d, a :| CutShortAt(survey, t0, t, d, a);
      CutFacts(survey, t0, t, d, a);
    }
  }

  /** Settling the running attempts in some order ends in these tables, with or without a fatal store error. */
  ghost predicate RecoversTo(survey: Survey, t0: Tables, t: Tables, ok: bool) {
    exists order :: IsOrder(order, RunningAttempts(t0)) && SettleInOrder(survey, t0, order) == (t, ok)
  }

  lemma ConcatIsOrder(a: seq<nat>, b: seq<nat>, all: set<nat>)
    requires IsOrder(a, Elements(a)) && Elements(a) <= all && IsOrder(b, all - Elements(a))
    ensures IsOrder(a + b, all)
  {
    var c := a + b;
    forall i, j | 0 <= i < j < |c| ensures c[i] != c[j] {
      if i < |a| <= j {
        assert c[i] in Elements(a) && c[j] in b;
      }
    }
    forall x ensures x in all <==> x in c {
      assert x in c <==> x in a || x in b;
    }
  }

  lemma ErrorInSomeOrder(survey: Survey, t0: Tables, t: Tables, order: seq<nat>, all: set<nat>)
    requires SettleInOrder(survey, t0, order) == (t, false) && IsOrder(order, Elements(order)) && Elements(order) <= all
    requires all == RunningAttempts(t0)
    ensures RecoversTo(survey, t0, t, false)
  {
    hide SettleInOrder;
    SomeOrder(all - Elements(order));
    var rest :| IsOrder(rest, all - Elements(order));
    ErrorStays(survey, t0, order, rest);
    ConcatIsOrder(order, rest, all);
  }

  lemma CutFacts(survey: Survey, t0: Tables, t: Tables, done: set<nat>, a: nat)
    requires CutShortAt(survey, t0, t, done, a) && UniqueKeys(t0.intents)
    ensures UniqueKeys(t.intents) && survey.store != SOUND_STORE
  {
    hide AttemptsSettled, IntentsSettled, JobsSettled, OutcomesRecorded, UniqueKeys;
    SettledKeys(survey, t0, t, if a in survey.store.load then done else done + {a});
  }

  lemma NothingSettled(survey: Survey, t0: Tables)
    ensures SettledSoFar(survey, t0, t0, {})
  {
    hide SettledRow, RowsOf, AttemptVerdict;
  }

  lemma AttemptKept(survey: Survey, t0: Tables, t: Tables, done: set<nat>, a: nat)
    requires SettledSoFar(survey, t0, t, done) && a in t0.attempts && a !in done
    ensures a in t.attempts && t.attempts[a] == t0.attempts[a]
  {
    hide SettledRow, RowsOf, AttemptVerdict, IntentsSettled, JobsSettled, OutcomesRecorded;
  }

  lemma FinishedFacts(survey: Survey, t0: Tables, t: Tables)
    requires SettledSoFar(survey, t0, t, RunningAttempts(t0)) && UniqueKeys(t0.intents)
    requires forall a :: a in RunningAttempts(t0) ==> Loadable(t0.intents, a)
    ensures RunningAttempts(t) == {} && UniqueKeys(t.intents)
  {
    hide SettledRow, RowsOf, AttemptVerdict, JobsSettled, OutcomesRecorded, Loadable, RunningAttempts;
    NothingRunning(survey, t0, t);
    SettledKeys(survey, t0, t, RunningAttempts(t0));
  }

  /** A second recovery finds nothing to do: it returns 0 and changes nothing. */
  method RecoverTwice(
    store: SqliteStore, disk: Disk, catalog: Catalog, faults: map<(nat, nat), VerifyFaults>, broken: StoreFaults)
    returns (first: Option<nat>, second: Option<nat>, ghost between: Tables)
    requires Recoverable(store.View())
    modifies store
    ensures first.Some? ==> second == Some(0) && store.View() == between
  {
    hide SettledSoFar, CutShort, UniqueKeys, Loadable, DeletedIn;
    first := ReconcileStartupCrashes(store, disk, catalog, faults, broken);
    between := store.View();
    second := None;
    if first.Some? {
      second := ReconcileStartupCrashes(store, disk, catalog, faults, SOUND_STORE);
    }
  }
}
