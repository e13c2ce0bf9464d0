/**
 A second recovery after an interrupted one, at every crash point and after every store error: attempts are
 always settled, and exact conditions say when intents and job rows are as if nothing had happened.
 */
module Retry {
  import opened Domain
  import opened Paths
  import opened Filesystem
  import opened Verification
  import opened Durability
  import opened Recovery
  import opened Reconciliation
  import opened Interruption

  // ------------------------------------------------------------------ Verdicts look at the disk only

  ghost predicate SameButState(a: Intent, b: Intent) {
    b == a.(state := b.state)
  }

  /** The rows differ at most in their states. */
  ghost predicate StatesOnly(a: seq<Intent>, b: seq<Intent>) {
    |a| == |b| && forall i :: 0 <= i < |a| ==> SameButState(a[i], b[i])
  }

  ghost predicate SameVerdicts(survey: Survey, a: seq<Intent>, b: seq<Intent>) {
    && (AllDeleted(survey, a) <==> AllDeleted(survey, b))
    && (SomeUnknown(survey, a) <==> SomeUnknown(survey, b))
    && Reclaimed(survey, a) == Reclaimed(survey, b)
  }

  lemma SettledIgnoresState(survey: Survey, a: Intent, b: Intent)
    requires SameButState(a, b) && LoadableTarget(a.target)
    ensures Settled(survey, Reload(b)) == Settled(survey, Reload(a))
    ensures ResultOf(survey, Reload(b)).reclaimed == ResultOf(survey, Reload(a)).reclaimed
  {
    hide VerifyPath, Components, IsRelPath, LoadableTarget;
  }

  lemma SameVerdictsEnd(survey: Survey, a: seq<Intent>, b: seq<Intent>, x: Intent, y: Intent)
    requires SameVerdicts(survey, a, b)
    requires Settled(survey, x) == Settled(survey, y) && ResultOf(survey, x).reclaimed == ResultOf(survey, y).reclaimed
    ensures SameVerdicts(survey, a + [x], b + [y])
  {
    hide Settled, ResultOf;
    assert (a + [x])[..|a|] == a && (b + [y])[..|b|] == b;
    VerdictsEnd(survey, a, x);
    VerdictsEnd(survey, b, y);
  }

  lemma VerdictsEnd(survey: Survey, a: seq<Intent>, x: Intent)
    ensures AllDeleted(survey, a + [x]) <==> AllDeleted(survey, a) && Settled(survey, x) == VerifiedSuccess
    ensures SomeUnknown(survey, a + [x]) <==> SomeUnknown(survey, a) || Settled(survey, x) == ResolvedUnknown
  {
    hide Settled;
    assert x in a + [x];
    forall r | r in a ensures r in a + [x] {
    }
  }

  /** The verdicts on an attempt do not depend on the states that its intents already have. */
  lemma {:induction false} VerdictsIgnoreStates(survey: Survey, a: seq<Intent>, b: seq<Intent>, attempt: nat)
    requires StatesOnly(a, b) && Loadable(a, attempt)
    ensures Loadable(b, attempt) && SameVerdicts(survey, RowsOf(a, attempt), RowsOf(b, attempt))
  {
    hide Reload, LoadableTarget, SameVerdicts, SameButState;
    if a == [] {
      NoVerdicts(survey);
    } else {
      var n := |a| - 1;
      StateKeepsKey(a, b);
      VerdictsIgnoreStates(survey, a[..n], b[..n], attempt);
      if a[n].attempt == attempt {
        SettledIgnoresState(survey, a[n], b[n]);
        SameVerdictsEnd(survey, RowsOf(a[..n], attempt), RowsOf(b[..n], attempt), Reload(a[n]), Reload(b[n]));
      }
    }
  }

  lemma NoVerdicts(survey: Survey)
    ensures SameVerdicts(survey, [], [])
  {
  }

  lemma StateKeepsKey(a: seq<Intent>, b: seq<Intent>)
    requires StatesOnly(a, b)
    ensures forall i :: 0 <= i < |a| ==> b[i].attempt == a[i].attempt && b[i].target == a[i].target
  {
  }

  /** The store errors of the first recovery have no part in the verdicts of the second. */
  function Sound(survey: Survey): Survey {
    survey.(store := SOUND_STORE)
  }

  lemma AttemptVerdictAgrees(survey: Survey, a: seq<Intent>, b: seq<Intent>)
    requires SameVerdicts(survey, a, b)
    ensures AttemptVerdict(survey, a) == AttemptVerdict(survey, b) && JobVerdict(survey, a) == JobVerdict(survey, b)
  {
  }

  lemma SoundSettled(survey: Survey, row: Intent)
    ensures Settled(Sound(survey), row) == Settled(survey, row)
  {
    hide VerifyPath, Components;
  }

  lemma {:induction false} SoundVerdict(survey: Survey, rows: seq<Intent>)
    ensures AttemptVerdict(Sound(survey), rows) == AttemptVerdict(survey, rows)
    ensures JobVerdict(Sound(survey), rows) == JobVerdict(survey, rows)
    ensures Reclaimed(Sound(survey), rows) == Reclaimed(survey, rows)
  {
    hide Settled;
    forall r ensures Settled(Sound(survey), r) == Settled(survey, r) {
      SoundSettled(survey, r);
    }
    if rows != [] {
      SoundVerdict(survey, rows[..|rows| - 1]);
    }
  }

  // ------------------------------------------------------------------ Attempts

  /** What is still running are the attempts whose rows were not reached. */
  lemma StillRunning(survey: Survey, t0: Tables, t: Tables, done: set<nat>)
    requires AttemptsSettled(survey, t0, t, done) && done <= RunningAttempts(t0)
    requires forall a :: a in done ==> Loadable(t0.intents, a)
    ensures RunningAttempts(t) == RunningAttempts(t0) - done
  {
    hide AttemptVerdict, RowsOf, LoadableTarget;
    forall a | a in t.attempts ensures a in RunningAttempts(t) <==> a in RunningAttempts(t0) - done {
      if a in done {
        VerdictIsFinal(survey, RowsOf(t0.intents, a));
      }
    }
  }

  lemma ReachedStatesOnly(
    survey: Survey, before: seq<Intent>, after: seq<Intent>, done: set<nat>, a: nat, ops: set<nat>)
    requires RowsReached(survey, before, after, done, a, ops)
    ensures StatesOnly(before, after)
  {
    hide Settled, Reload, LoadableTarget;
  }

  lemma RetryAttempts(survey: Survey, t0: Tables, t: Tables, t': Tables, first: set<nat>, rest: set<nat>)
    requires AttemptsSettled(survey, t0, t, first) && StatesOnly(t0.intents, t.intents)
    requires AttemptsSettled(Sound(survey), t, t', rest) && first !! rest
    requires forall a :: a in first + rest ==> Loadable(t0.intents, a)
    ensures AttemptsSettled(Sound(survey), t0, t', first + rest)
  {
    hide RowsOf, LoadableTarget, AttemptVerdict, StatesOnly;
    forall a | a in first + rest && a in t0.attempts
      ensures t'.attempts[a] == t0.attempts[a].(state := AttemptVerdict(Sound(survey), RowsOf(t0.intents, a)))
    {
      VerdictsIgnoreStates(Sound(survey), t0.intents, t.intents, a);
      SoundVerdict(survey, RowsOf(t0.intents, a));
      AttemptVerdictAgrees(Sound(survey), RowsOf(t0.intents, a), RowsOf(t.intents, a));
    }
  }

  // ------------------------------------------------------------------ Job rows

  lemma WritesSame(survey: Survey, t0: Tables, t: Tables, a: nat, j: nat, row: JobRow)
    requires StatesOnly(t0.intents, t.intents) && Loadable(t0.intents, a) && a in t0.attempts
    requires a in t.attempts && t.attempts[a].jobId == t0.attempts[a].jobId
    requires WritesJob(Sound(survey), t, a, j, row)
    ensures WritesJob(Sound(survey), t0, a, j, row)
  {
    hide RowsOf, LoadableTarget, JobVerdict, Reclaimed, StatesOnly;
    VerdictsIgnoreStates(Sound(survey), t0.intents, t.intents, a);
    AttemptVerdictAgrees(Sound(survey), RowsOf(t0.intents, a), RowsOf(t.intents, a));
  }

  lemma WriterIsStored(survey: Survey, t: Tables, a: nat, j: nat, row: JobRow)
    requires WritesJob(survey, t, a, j, row)
    ensures a in t.attempts && t.attempts[a].jobId == j
  {
  }

  lemma SoundWriter(survey: Survey, t: Tables, a: nat, j: nat, row: JobRow)
    requires WritesJob(survey, t, a, j, row)
    ensures WritesJob(Sound(survey), t, a, j, row)
  {
    SoundVerdict(survey, RowsOf(t.intents, a));
  }

  lemma JobIdsStay(survey: Survey, t0: Tables, t: Tables, done: set<nat>)
    requires AttemptsSettled(survey, t0, t, done)
    ensures t.attempts.Keys == t0.attempts.Keys && forall b :: b in t0.attempts ==>
      t.attempts[b].jobId == t0.attempts[b].jobId
  {
    hide RowsOf, LoadableTarget, AttemptVerdict;
  }

  lemma JobUntouched(survey: Survey, t0: Tables, t: Tables, done: set<nat>, j: nat)
    requires JobsSettled(survey, t0, t, done) && j in t0.jobs
    requires forall b :: b in done && b in t0.attempts ==> t0.attempts[b].jobId != j
    ensures j in t.jobs && t.jobs[j] == t0.jobs[j]
  {
    hide WritesJob;
  }

  /** The job rows of the first recovery and of the second together. */
  lemma RetryJobs(survey: Survey, t0: Tables, t: Tables, t': Tables, first: set<nat>, rest: set<nat>)
    requires t.attempts.Keys == t0.attempts.Keys && StatesOnly(t0.intents, t.intents)
    requires forall b :: b in t0.attempts ==> t.attempts[b].jobId == t0.attempts[b].jobId
    requires JobsSettled(survey, t0, t, first) && JobsSettled(Sound(survey), t, t', rest)
    requires forall a :: a in first + rest ==> Loadable(t0.intents, a)
    ensures JobsSettled(Sound(survey), t0, t', first + rest)
  {
    hide LoadableTarget, WritesJob, StatesOnly;
    forall j | j in t0.jobs
      ensures if exists a :: a in first + rest && a in t0.attempts && t0.attempts[a].jobId == j
        then exists a :: a in first + rest && WritesJob(Sound(survey), t0, a, j, t'.jobs[j])
        else t'.jobs[j] == t0.jobs[j]
    {
      if a :| a in rest && a in t.attempts && t.attempts[a].jobId == j {
        var b :| b in rest && WritesJob(Sound(survey), t, b, j, t'.jobs[j]);
        WriterIsStored(Sound(survey), t, b, j, t'.jobs[j]);
        WritesSame(survey, t0, t, b, j, t'.jobs[j]);
      } else if a :| a in first && a in t0.attempts && t0.attempts[a].jobId == j {
        var b :| b in first && WritesJob(survey, t0, b, j, t.jobs[j]);
        SoundWriter(survey, t0, b, j, t.jobs[j]);
      }
    }
  }

  /** Some attempt of these other than `a` belongs to the same job. */
  ghost predicate Sibling(t: Tables, attempts: set<nat>, a: nat)
    requires a in t.attempts
  {
    exists b :: b in attempts && b != a && b in t.attempts && t.attempts[b].jobId == t.attempts[a].jobId
  }

  /** Nothing for attempt `a` to write: its job is not stored, another attempt writes it, or it is right already. */
  ghost predicate NothingToCredit(survey: Survey, t0: Tables, a: nat)
    requires a in t0.attempts
  {
    var j := t0.attempts[a].jobId;
    j !in t0.jobs || Sibling(t0, RunningAttempts(t0), a) || WritesJob(Sound(survey), t0, a, j, t0.jobs[j])
  }

  /** What the job row of job `j` must be, when these attempts are settled. */
  ghost predicate JobRight(survey: Survey, t0: Tables, t': Tables, all: set<nat>, j: nat)
    requires j in t0.jobs && j in t'.jobs
  {
    if exists b :: b in all && b in t0.attempts && t0.attempts[b].jobId == j
    then exists b :: b in all && WritesJob(survey, t0, b, j, t'.jobs[j])
    else t'.jobs[j] == t0.jobs[j]
  }

  lemma WidenJob(survey: Survey, t0: Tables, t': Tables, all: set<nat>, a: nat, j: nat)
    requires JobsSettled(Sound(survey), t0, t', all - {a}) && a in all && a in t0.attempts && all == RunningAttempts(t0)
    requires j in t0.jobs && NothingToCredit(survey, t0, a)
    ensures JobRight(Sound(survey), t0, t', all, j)
  {
    hide WritesJob;
    if b :| b in all - {a} && b in t0.attempts && t0.attempts[b].jobId == j {
      var c :| c in all - {a} && WritesJob(Sound(survey), t0, c, j, t'.jobs[j]);
    }
  }

  lemma CreditIsMissed(survey: Survey, t0: Tables, t': Tables, all: set<nat>, a: nat)
    requires JobsSettled(Sound(survey), t0, t', all - {a}) && a in all && a in t0.attempts && all == RunningAttempts(t0)
    requires JobsSettled(Sound(survey), t0, t', all)
    ensures NothingToCredit(survey, t0, a)
  {
    hide WritesJob;
    var mine := t0.attempts[a].jobId;
    if mine in t0.jobs && !Sibling(t0, all, a) {
      JobUntouched(Sound(survey), t0, t', all - {a}, mine);
      var b :| b in all && WritesJob(Sound(survey), t0, b, mine, t'.jobs[mine]);
      WriterIsStored(Sound(survey), t0, b, mine, t'.jobs[mine]);
    }
  }

  /** Adding an attempt that wrote nothing: right exactly if there was nothing for it to write. */
  lemma WidenJobs(survey: Survey, t0: Tables, t': Tables, all: set<nat>, a: nat)
    requires JobsSettled(Sound(survey), t0, t', all - {a}) && a in all && a in t0.attempts && all == RunningAttempts(t0)
    ensures JobsSettled(Sound(survey), t0, t', all) <==> NothingToCredit(survey, t0, a)
  {
    hide WritesJob, NothingToCredit;
    if NothingToCredit(survey, t0, a) {
      forall j | j in t0.jobs ensures JobRight(Sound(survey), t0, t', all, j) {
        WidenJob(survey, t0, t', all, a, j);
      }
    } else if JobsSettled(Sound(survey), t0, t', all) {
      CreditIsMissed(survey, t0, t', all, a);
    }
  }

  // ------------------------------------------------------------------ Intents

  /** The intent is as if resolved: a lost update makes no difference when the state was right already. */
  ghost predicate Unharmed(survey: Survey, row: Intent) {
    (row.attempt, row.op) in survey.store.update ==> SettledRow(Sound(survey), row) == row
  }

  ghost predicate NoLostIntent(survey: Survey, rows: seq<Intent>, closed: set<nat>) {
    forall i :: 0 <= i < |rows| && rows[i].attempt in closed ==> Unharmed(survey, rows[i])
  }

  lemma ClosedRow(survey: Survey, row: Intent)
    ensures SettledRow(survey, row) == SettledRow(Sound(survey), row) <==> Unharmed(survey, row)
  {
    hide Settled, Reload, LoadableTarget;
    if LoadableTarget(row.target) {
      SoundSettled(survey, Reload(row));
    }
  }

  lemma ReopenedRow(survey: Survey, row: Intent)
    ensures SettledRow(Sound(survey), SettledRow(survey, row)) == SettledRow(Sound(survey), row)
  {
    hide Settled, Reload, LoadableTarget;
    if LoadableTarget(row.target) {
      SettledIgnoresState(Sound(survey), row, SettledRow(survey, row));
    }
  }

  lemma RowAfterRetry(
    survey: Survey, row: Intent, done: set<nat>, a: nat, ops: set<nat>, closed: set<nat>, rest: set<nat>)
    requires closed !! rest && done <= closed && a in closed + rest
    requires a in closed && row.attempt == a ==> row.op in ops
    requires row.attempt in closed ==> row.attempt == a || row.attempt in done
    ensures
      var now := ReachedRow(survey, row, done, a, ops);
      var next := if row.attempt in rest then SettledRow(Sound(survey), now) else now;
      var want := if row.attempt in closed + rest then SettledRow(Sound(survey), row) else row;
      next == want <==> (row.attempt in closed ==> Unharmed(survey, row))
  {
    hide SettledRow, Unharmed;
    ClosedRow(survey, row);
    ReopenedRow(survey, row);
  }

  lemma RetryIntentsExactly(
    survey: Survey, t0: Tables, t: Tables, t': Tables, done: set<nat>, a: nat, ops: set<nat>, closed: set<nat>,
    rest: set<nat>)
    requires RowsReached(survey, t0.intents, t.intents, done, a, ops) && IntentsSettled(Sound(survey), t, t', rest)
    requires closed !! rest && done <= closed <= done + {a} && a in closed + rest
    requires a in closed ==> AllReached(t0.intents, a, ops)
    ensures IntentsSettled(Sound(survey), t0, t', closed + rest) <==> NoLostIntent(survey, t0.intents, closed)
  {
    hide SettledRow, ReachedRow, Unharmed;
    forall i | 0 <= i < |t0.intents|
      ensures t'.intents[i]
        == (if t0.intents[i].attempt in closed + rest then SettledRow(Sound(survey), t0.intents[i]) else t0.intents[i])
        <==> (t0.intents[i].attempt in closed ==> Unharmed(survey, t0.intents[i]))
    {
      RowAfterRetry(survey, t0.intents[i], done, a, ops, closed, rest);
      ReachedKey(survey, t0.intents[i], done, a, ops);
    }
  }

  lemma ReachedKey(survey: Survey, row: Intent, done: set<nat>, a: nat, ops: set<nat>)
    ensures ReachedRow(survey, row, done, a, ops).attempt == row.attempt
  {
  }

  // ------------------------------------------------------------------ Outcomes

  lemma SameOutcome(survey: Survey, a: Intent, b: Intent)
    requires SameButState(a, b) && LoadableTarget(a.target)
    ensures RecordOf(survey, Reload(b)) == RecordOf(survey, Reload(a))
    ensures Recordable(survey, Reload(b)) == Recordable(survey, Reload(a))
  {
    hide Settled, LoadableTarget;
    SettledIgnoresState(survey, a, b);
  }

  lemma OutcomeIgnoresStates(survey: Survey, t0: Tables, t: Tables, b: nat, key: (nat, nat), row: OperationRow)
    requires StatesOnly(t0.intents, t.intents) && Loadable(t0.intents, b) && b in t0.attempts
    requires b in t.attempts && t.attempts[b].jobId == t0.attempts[b].jobId && OutcomeOf(survey, t, b, key, row)
    ensures OutcomeOf(survey, t0, b, key, row)
  {
    hide RowsOf, LoadableTarget, RecordOf, Reload;
    var r :| r in RowsOf(t.intents, b) && key == (t.attempts[b].jobId, r.op) && RecordedAs(survey, r, row);
    RowsOfMembers(t.intents, b, r);
    var k :| 0 <= k < |t.intents| && t.intents[k].attempt == b && Reload(t.intents[k]) == r;
    SameOutcome(survey, t0.intents[k], t.intents[k]);
    ReloadKeepsKey(t0.intents[k]);
    ReloadKeepsKey(t.intents[k]);
    RowsOfMembers(t0.intents, b, Reload(t0.intents[k]));
  }

  lemma SoundOutcome(survey: Survey, t0: Tables, b: nat, key: (nat, nat), row: OperationRow)
    requires OutcomeOf(survey, t0, b, key, row)
    ensures OutcomeOf(Sound(survey), t0, b, key, row)
  {
    hide RowsOf, LoadableTarget, Settled;
    var r :| r in RowsOf(t0.intents, b) && key == (t0.attempts[b].jobId, r.op) && RecordedAs(survey, r, row);
    SoundSettled(survey, r);
    assert RecordedAs(Sound(survey), r, row);
  }

  /** Attempt `b` records under this key: by a statement that did not fail, or that the retry repeats. */
  ghost predicate RecordsKey(survey: Survey, t0: Tables, closed: set<nat>, b: nat, key: (nat, nat)) {
    && b in t0.attempts && Loadable(t0.intents, b) && t0.attempts[b].jobId == key.0
    && exists r :: r in RowsOf(t0.intents, b) && r.op == key.1
        && Recordable(if b in closed then survey else Sound(survey), r)
  }

  /** Some running attempt records under this key, or an outcome of one of them stands there already. */
  ghost predicate Covered(survey: Survey, t0: Tables, closed: set<nat>, key: (nat, nat)) {
    || (key in t0.operations && OutcomeOfAny(Sound(survey), t0, RunningAttempts(t0), key, t0.operations[key]))
    || exists b :: b in RunningAttempts(t0) && RecordsKey(survey, t0, closed, b, key)
  }

  ghost predicate CoveredFor(survey: Survey, t0: Tables, closed: set<nat>, b: nat) {
    b in t0.attempts && Loadable(t0.intents, b) && t0.attempts[b].jobId in t0.jobs ==>
      forall r :: r in RowsOf(t0.intents, b) && Recordable(Sound(survey), r) ==>
        Covered(survey, t0, closed, (t0.attempts[b].jobId, r.op))
  }

  /** No outcome of a closed attempt was lost. */
  ghost predicate NoLostOutcome(survey: Survey, t0: Tables, closed: set<nat>) {
    forall b :: b in closed ==> CoveredFor(survey, t0, closed, b)
  }

  lemma OutcomeRecordsKey(
    survey: Survey, t0: Tables, closed: set<nat>, b: nat, key: (nat, nat), row: OperationRow)
    requires OutcomeOf(survey, t0, b, key, row) || (b !in closed && OutcomeOf(Sound(survey), t0, b, key, row))
    ensures RecordsKey(survey, t0, closed, b, key)
  {
    hide RowsOf, LoadableTarget, RecordOf;
  }

  /** An outcome that stands after the first recovery stands for all attempts. */
  lemma FirstOutcome(survey: Survey, t0: Tables, first: set<nat>, all: set<nat>, key: (nat, nat), row: OperationRow)
    requires OutcomeOfAny(survey, t0, first, key, row) && first <= all
    ensures OutcomeOfAny(Sound(survey), t0, all, key, row)
  {
    hide OutcomeOf;
    var b :| b in first && OutcomeOf(survey, t0, b, key, row);
    SoundOutcome(survey, t0, b, key, row);
  }

  lemma SecondOutcome(
    survey: Survey, t0: Tables, t: Tables, rest: set<nat>, all: set<nat>, key: (nat, nat), row: OperationRow)
    requires StatesOnly(t0.intents, t.intents) && rest <= all && t.attempts.Keys == t0.attempts.Keys
    requires forall b :: b in t0.attempts ==> t.attempts[b].jobId == t0.attempts[b].jobId
    requires forall b :: b in all ==> Loadable(t0.intents, b)
    requires OutcomeOfAny(Sound(survey), t, rest, key, row)
    ensures OutcomeOfAny(Sound(survey), t0, all, key, row)
  {
    hide RowsOf, LoadableTarget, RecordOf, StatesOnly;
    var b :| b in rest && OutcomeOf(Sound(survey), t, b, key, row);
    OutcomeIgnoresStates(Sound(survey), t0, t, b, key, row);
  }

  lemma RetryWithin(
    survey: Survey, t0: Tables, t: Tables, t': Tables, first: set<nat>, rest: set<nat>, all: set<nat>)
    requires StatesOnly(t0.intents, t.intents) && first <= all && rest <= all && t.attempts.Keys == t0.attempts.Keys
    requires forall b :: b in t0.attempts ==> t.attempts[b].jobId == t0.attempts[b].jobId
    requires forall b :: b in all ==> Loadable(t0.intents, b)
    requires OutcomesWithin(survey, t0, t, first) && OutcomesWithin(Sound(survey), t, t', rest)
    ensures OutcomesWithin(Sound(survey), t0, t', all)
    ensures forall key :: key in t.operations && OutcomeOfAny(survey, t0, first, key, t.operations[key]) ==>
      key in t'.operations && OutcomeOfAny(Sound(survey), t0, all, key, t'.operations[key])
  {
    hide LoadableTarget, OutcomeOfAny, StatesOnly;
    forall key | key in t'.operations
      ensures key in t.operations && OutcomeOfAny(survey, t0, first, key, t.operations[key]) ==>
        OutcomeOfAny(Sound(survey), t0, all, key, t'.operations[key])
      ensures (key in t0.operations && t'.operations[key] == t0.operations[key])
        || OutcomeOfAny(Sound(survey), t0, all, key, t'.operations[key])
    {
      if OutcomeOfAny(Sound(survey), t, rest, key, t'.operations[key]) {
        SecondOutcome(survey, t0, t, rest, all, key, t'.operations[key]);
      } else if OutcomeOfAny(survey, t0, first, key, t'.operations[key]) {
        FirstOutcome(survey, t0, first, all, key, t'.operations[key]);
      }
    }
  }

  lemma RetryStoredAgain(survey: Survey, t0: Tables, t: Tables, t': Tables, rest: set<nat>, all: set<nat>, b: nat)
    requires StatesOnly(t0.intents, t.intents) && rest <= all && t.attempts.Keys == t0.attempts.Keys
    requires forall c :: c in t0.attempts ==> t.attempts[c].jobId == t0.attempts[c].jobId
    requires forall c :: c in all ==> Loadable(t0.intents, c)
    requires t.jobs.Keys == t0.jobs.Keys && b in rest && OutcomesStoredFor(Sound(survey), t, t', rest, b)
    ensures OutcomesStoredFor(Sound(survey), t0, t', all, b)
  {
    hide RowsOf, LoadableTarget, OutcomeOfAny, Reload, RecordOf;
    if b in t0.attempts && t0.attempts[b].jobId in t0.jobs {
      LoadableStays(t0, t);
      forall r | r in RowsOf(t0.intents, b) && Recordable(Sound(survey), r)
        ensures
          var key := (t0.attempts[b].jobId, r.op);
          key in t'.operations && OutcomeOfAny(Sound(survey), t0, all, key, t'.operations[key])
      {
        RowsOfMembers(t0.intents, b, r);
        var k :| 0 <= k < |t0.intents| && t0.intents[k].attempt == b && Reload(t0.intents[k]) == r;
        SameOutcome(Sound(survey), t0.intents[k], t.intents[k]);
        ReloadKeepsKey(t0.intents[k]);
        ReloadKeepsKey(t.intents[k]);
        RowsOfMembers(t.intents, b, Reload(t.intents[k]));
        var key := (t0.attempts[b].jobId, r.op);
        SecondOutcome(survey, t0, t, rest, all, key, t'.operations[key]);
      }
    }
  }

  /** The first recovery and the second, with what they have to do with each other. */
  ghost predicate Rerun(survey: Survey, t0: Tables, t: Tables, t': Tables, first: set<nat>, closed: set<nat>) {
    var all, rest := RunningAttempts(t0), RunningAttempts(t);
    && StatesOnly(t0.intents, t.intents) && t.attempts.Keys == t0.attempts.Keys && t.jobs.Keys == t0.jobs.Keys
    && (forall c :: c in t0.attempts ==> t.attempts[c].jobId == t0.attempts[c].jobId)
    && (forall c :: c in all ==> Loadable(t0.intents, c))
    && closed + rest == all && closed !! rest && first <= all
    && OutcomesWithin(survey, t0, t, first) && OutcomesRecorded(Sound(survey), t, t', rest)
    && forall b :: b in closed ==> OutcomesStoredFor(survey, t0, t, first, b)
  }

  /** Under a covered key the second recovery leaves an outcome. */
  lemma CoveredIsRecorded(
    survey: Survey, t0: Tables, t: Tables, t': Tables, first: set<nat>, closed: set<nat>, key: (nat, nat))
    requires Rerun(survey, t0, t, t', first, closed) && Covered(survey, t0, closed, key) && key.0 in t0.jobs
    ensures key in t'.operations && OutcomeOfAny(Sound(survey), t0, RunningAttempts(t0), key, t'.operations[key])
  {
    hide RowsOf, LoadableTarget, StatesOnly, OutcomeOfAny;
    var all, rest := RunningAttempts(t0), RunningAttempts(t);
    RetryWithin(survey, t0, t, t', first, rest, all);
    if b :| b in all && RecordsKey(survey, t0, closed, b, key) {
      if b in rest {
        RetryStoredAgain(survey, t0, t, t', rest, all, b);
      } else {
        assert OutcomesStoredFor(survey, t0, t, first, b);
      }
    }
  }

  /** And only there. */
  lemma RecordedIsCovered(
    survey: Survey, t0: Tables, t: Tables, t': Tables, first: set<nat>, closed: set<nat>, key: (nat, nat))
    requires Rerun(survey, t0, t, t', first, closed) && key in t'.operations
    requires OutcomeOfAny(Sound(survey), t0, RunningAttempts(t0), key, t'.operations[key])
    ensures Covered(survey, t0, closed, key)
  {
    hide RowsOf, LoadableTarget, StatesOnly, OutcomeOf, RecordsKey, OutcomesStoredFor;
    var rest, row := RunningAttempts(t), t'.operations[key];
    if b :| b in rest && OutcomeOf(Sound(survey), t, b, key, row) {
      WriterIsKnown(Sound(survey), t, b, key, row);
      OutcomeIgnoresStates(Sound(survey), t0, t, b, key, row);
      OutcomeRecordsKey(survey, t0, closed, b, key, row);
    } else if b :| b in first && OutcomeOf(survey, t0, b, key, row) {
      OutcomeRecordsKey(survey, t0, closed, b, key, row);
    }
  }

  lemma WriterIsKnown(survey: Survey, t: Tables, b: nat, key: (nat, nat), row: OperationRow)
    requires OutcomeOf(survey, t, b, key, row)
    ensures b in t.attempts
  {
  }

  lemma StoredForExactly(
    survey: Survey, t0: Tables, t: Tables, t': Tables, first: set<nat>, closed: set<nat>, b: nat)
    requires Rerun(survey, t0, t, t', first, closed) && b in closed
    ensures OutcomesStoredFor(Sound(survey), t0, t', RunningAttempts(t0), b) <==> CoveredFor(survey, t0, closed, b)
  {
    hide RowsOf, LoadableTarget, Rerun, OutcomeOfAny, Covered;
    if b in t0.attempts && Loadable(t0.intents, b) && t0.attempts[b].jobId in t0.jobs {
      forall r | r in RowsOf(t0.intents, b) && Recordable(Sound(survey), r)
        ensures
          var key := (t0.attempts[b].jobId, r.op);
          Covered(survey, t0, closed, key) <==>
            key in t'.operations && OutcomeOfAny(Sound(survey), t0, RunningAttempts(t0), key, t'.operations[key])
      {
        var key := (t0.attempts[b].jobId, r.op);
        if Covered(survey, t0, closed, key) {
          CoveredIsRecorded(survey, t0, t, t', first, closed, key);
        } else if key in t'.operations
          && OutcomeOfAny(Sound(survey), t0, RunningAttempts(t0), key, t'.operations[key]) {
          RecordedIsCovered(survey, t0, t, t', first, closed, key);
        }
      }
    }
  }

  lemma RetryOutcomesExactly(survey: Survey, t0: Tables, t: Tables, t': Tables, first: set<nat>, closed: set<nat>)
    requires Rerun(survey, t0, t, t', first, closed)
    ensures OutcomesRecorded(Sound(survey), t0, t', RunningAttempts(t0)) <==> NoLostOutcome(survey, t0, closed)
  {
    hide Loadable, OutcomesStoredFor, OutcomesWithin, CoveredFor, StatesOnly, OutcomeOfAny;
    var all, rest := RunningAttempts(t0), RunningAttempts(t);
    RetryWithin(survey, t0, t, t', first, rest, all);
    forall b | b in closed
      ensures OutcomesStoredFor(Sound(survey), t0, t', all, b) <==> CoveredFor(survey, t0, closed, b)
    {
      StoredForExactly(survey, t0, t, t', first, closed, b);
    }
    forall b | b in rest ensures OutcomesStoredFor(Sound(survey), t0, t', all, b) {
      RetryStoredAgain(survey, t0, t, t', rest, all, b);
    }
  }

  // ------------------------------------------------------------------ Main results

  lemma LoadableStays(t0: Tables, t: Tables)
    requires StatesOnly(t0.intents, t.intents)
    ensures forall b :: Loadable(t0.intents, b) ==> Loadable(t.intents, b)
  {
    hide LoadableTarget;
    StateKeepsKey(t0.intents, t.intents);
  }

  lemma UniqueStays(a: seq<Intent>, b: seq<Intent>)
    requires StatesOnly(a, b) && UniqueKeys(a)
    ensures UniqueKeys(b)
  {
    assert forall i :: 0 <= i < |a| ==> SameButState(a[i], b[i]);
  }

  /**
   What a second recovery that goes through makes of an interruption: every attempt is settled; the intents
   are as if nothing had happened exactly if no update of an intent of a closed attempt was lost, or its
   state was right already; the job rows are exactly if the interruption was not between closing attempt
   `a` and crediting its job, or there was nothing to credit; and the outcomes are exactly if the key of each
   lost record is covered otherwise.
   */
  ghost predicate Retried(survey: Survey, t0: Tables, t': Tables, done: set<nat>, a: nat, marked: bool)
    requires a in t0.attempts
  {
    var all, closed := RunningAttempts(t0), Closed(done, a, marked);
    && RunningAttempts(t') == {} && t'.leases == t0.leases
    && AttemptsSettled(Sound(survey), t0, t', all)
    && (IntentsSettled(Sound(survey), t0, t', all) <==> NoLostIntent(survey, t0.intents, closed))
    && (JobsSettled(Sound(survey), t0, t', all) <==> !marked || NothingToCredit(survey, t0, a))
    && (OutcomesRecorded(Sound(survey), t0, t', all) <==> NoLostOutcome(survey, t0, closed))
  }

  /** After any interruption, in whichever order the second recovery works. */
  lemma RetryExactly(
    survey: Survey, t0: Tables, t: Tables, done: set<nat>, a: nat, marked: bool, t': Tables)
    requires Recoverable(t0) && InterruptedSomewhere(survey, t0, t, done, a, marked)
    requires SettledSoFar(Sound(survey), t, t', RunningAttempts(t))
    ensures a in t0.attempts && Retried(survey, t0, t', done, a, marked)
  {
    hide AttemptsSettled, IntentsSettled, JobsSettled, OutcomesWithin, OutcomesStoredFor, OutcomesRecorded, Loadable;
    hide RowsReached, StatesOnly, UniqueKeys, AllReached, NoLostIntent, NothingToCredit, NoLostOutcome;
    var ops :| Interrupted(survey, t0, t, done, a, ops, marked);
    var closed, rest, all := Closed(done, a, marked), RunningAttempts(t), RunningAttempts(t0);
    ReachedStatesOnly(survey, t0.intents, t.intents, done, a, ops);
    LoadableStays(t0, t);
    StillRunning(survey, t0, t, closed);
    assert closed + rest == all && done + rest == if marked then all - {a} else all;
    RetryAttempts(survey, t0, t, t', closed, rest);
    RetryIntentsExactly(survey, t0, t, t', done, a, ops, closed, rest);
    JobIdsStay(survey, t0, t, closed);
    RetryJobs(survey, t0, t, t', done, rest);
    WidenIfMarked(survey, t0, t', all, a, marked);
    StillRunning(Sound(survey), t, t', rest);
    JobKeysStay(survey, t0, t, done);
    RetryOutcomesExactly(survey, t0, t, t', done + {a}, closed);
  }

  lemma JobKeysStay(survey: Survey, t0: Tables, t: Tables, done: set<nat>)
    requires JobsSettled(survey, t0, t, done)
    ensures t.jobs.Keys == t0.jobs.Keys
  {
  }

  lemma WidenIfMarked(survey: Survey, t0: Tables, t': Tables, all: set<nat>, a: nat, marked: bool)
    requires a in all && all == RunningAttempts(t0)
    requires JobsSettled(Sound(survey), t0, t', if marked then all - {a} else all)
    ensures JobsSettled(Sound(survey), t0, t', all) <==> !marked || NothingToCredit(survey, t0, a)
  {
    hide JobsSettled, NothingToCredit;
    if marked {
      WidenJobs(survey, t0, t', all, a);
    }
  }

  lemma StaysRecoverable(survey: Survey, t0: Tables, t: Tables, done: set<nat>, a: nat, marked: bool)
    requires Recoverable(t0) && InterruptedSomewhere(survey, t0, t, done, a, marked)
    ensures Recoverable(t)
  {
    hide JobsSettled, OutcomesWithin, OutcomesStoredFor, Loadable, RowsReached, AttemptsSettled, StatesOnly, UniqueKeys;
    var ops :| Interrupted(survey, t0, t, done, a, ops, marked);
    ReachedStatesOnly(survey, t0.intents, t.intents, done, a, ops);
    LoadableStays(t0, t);
    UniqueStays(t0.intents, t.intents);
    StillRunning(survey, t0, t, Closed(done, a, marked));
  }

  /** With a sound store, recovery goes through in every order. */
  lemma SoundGoesThrough(survey: Survey, t: Tables, order: seq<nat>)
    requires Recoverable(t) && IsOrder(order, RunningAttempts(t))
    ensures SettleInOrder(Sound(survey), t, order).1
    ensures SettledSoFar(Sound(survey), t, SettleInOrder(Sound(survey), t, order).0, RunningAttempts(t))
  {
    hide SettleInOrder, SettledParts, UniqueKeys, Loadable;
    IsElements(order, RunningAttempts(t));
    InOrderSettles(Sound(survey), t, order);
  }

  /** A crash between any two statements of a recovery in any order, retried in any order. */
  lemma RetryAfterCrash(
    survey: Survey, t0: Tables, order: seq<nat>, t: Tables, k: nat, n: nat, again: seq<nat>)
    requires Recoverable(t0) && IsOrder(order, RunningAttempts(t0)) && CrashPoint(survey, t0, order, t, k, n)
    requires IsOrder(again, RunningAttempts(t))
    ensures SettleInOrder(Sound(survey), t, again).1 && order[k] in t0.attempts
    ensures Retried(
      survey, t0, SettleInOrder(Sound(survey), t, again).0, Elements(order[..k]), order[k],
      n == 2 * |RowsOf(t0.intents, order[k])| + 1)
  {
    hide Crashed, SettleInOrder, RowsOf, LoadableTarget, UniqueKeys, Interrupted, SettledSoFar, Retried;
    var before, a := order[..k], order[k];
    PrefixOfOrder(order, k, RunningAttempts(t0));
    CrashIsInterruption(survey, t0, before, a, n);
    var marked := n == 2 * |RowsOf(t0.intents, a)| + 1;
    StaysRecoverable(survey, t0, t, Elements(before), a, marked);
    SoundGoesThrough(survey, t, again);
    RetryExactly(survey, t0, t, Elements(before), a, marked, SettleInOrder(Sound(survey), t, again).0);
  }

  lemma PrefixOfOrder(order: seq<nat>, k: nat, attempts: set<nat>)
    requires IsOrder(order, attempts) && k < |order|
    ensures IsOrder(order[..k] + [order[k]], Elements(order[..k] + [order[k]]))
    ensures Elements(order[..k] + [order[k]]) <= attempts
  {
    var front := order[..k] + [order[k]];
    assert forall i :: 0 <= i < |front| ==> front[i] == order[i];
  }

  /** A fatal store error is such a crash, right before the failing statement. */
  lemma RetryAfterError(survey: Survey, t0: Tables, t: Tables, done: set<nat>, a: nat, t': Tables)
    requires Recoverable(t0) && CutShortAt(survey, t0, t, done, a)
    requires SettledSoFar(Sound(survey), t, t', RunningAttempts(t))
    ensures a in t0.attempts && Retried(
      survey, t0, t', done, a, a !in survey.store.load && a !in survey.store.attempt)
  {
    hide SettledSoFar, CutShortAt, Interrupted, UniqueKeys, Retried, Loadable;
    CutShortIsInterrupted(survey, t0, t, done, a);
    RetryExactly(survey, t0, t, done, a, a !in survey.store.load && a !in survey.store.attempt, t');
  }

  lemma CutShortIsInterrupted(survey: Survey, t0: Tables, t: Tables, done: set<nat>, a: nat)
    requires CutShortAt(survey, t0, t, done, a)
    ensures
      var marked := a !in survey.store.load && a !in survey.store.attempt;
      InterruptedSomewhere(survey, t0, t, done, a, marked)
  {
    hide SettledRow, AttemptsSettled, JobsSettled, OutcomeOfAny;
    OpsOfAll(t0.intents, a);
    var ops := if a in survey.store.load then {} else OpsOf(t0.intents, a);
    assert RowsReached(survey, t0.intents, t.intents, done, a, ops);
    if a in survey.store.load {
      WiderOutcomes(survey, t0, t, done, a);
    }
    assert Interrupted(survey, t0, t, done, a, ops, a !in survey.store.load && a !in survey.store.attempt);
  }

  lemma WiderOutcomes(survey: Survey, t0: Tables, t: Tables, done: set<nat>, a: nat)
    requires OutcomesRecorded(survey, t0, t, done)
    ensures OutcomesWithin(survey, t0, t, done + {a})
    ensures forall b :: b in done ==> OutcomesStoredFor(survey, t0, t, done + {a}, b)
  {
    hide RowsOf, OutcomeOf, LoadableTarget;
  }

  /** Recovery was cut short at some attempt, and this is what the retry made of it. */
  ghost predicate RetriedFromError(survey: Survey, t0: Tables, t: Tables, t': Tables, done: set<nat>, a: nat) {
    && CutShortAt(survey, t0, t, done, a) && a in t0.attempts
    && Retried(survey, t0, t', done, a, a !in survey.store.load && a !in survey.store.attempt)
  }

  lemma CutShortIsRecoverable(survey: Survey, t0: Tables, t: Tables)
    requires Recoverable(t0) && CutShort(survey, t0, t)
    ensures Recoverable(t)
  {
    hide CutShortAt, Interrupted, UniqueKeys, Loadable;
    if done, a :| CutShortAt(survey, t0, t, done, a) {
      CutShortIsInterrupted(survey, t0, t, done, a);
      StaysRecoverable(survey, t0, t, done, a, a !in survey.store.load && a !in survey.store.attempt);
    }
  }

  lemma RetriedOrUntouched(survey: Survey, t0: Tables, t: Tables, t': Tables)
    requires Recoverable(t0) && CutShort(survey, t0, t) && SettledSoFar(Sound(survey), t, t', RunningAttempts(t))
    ensures (t == t0 && SettledSoFar(Sound(survey), t0, t', RunningAttempts(t0)))
      || exists done, a :: RetriedFromError(survey, t0, t, t', done, a)
  {
    hide CutShortAt, SettledSoFar, UniqueKeys, Loadable, Retried;
    if done, a :| CutShortAt(survey, t0, t, done, a) {
      RetryAfterError(survey, t0, t, done, a, t');
      assert RetriedFromError(survey, t0, t, t', done, a);
    }
  }

  /** Startup recovery fails on a store error; the daemon starts again and the store works. */
  method RecoverAgain(
    store: SqliteStore, disk: Disk, catalog: Catalog, faults: map<(nat, nat), VerifyFaults>, broken: StoreFaults)
    returns (first: Option<nat>, second: Option<nat>, ghost between: Tables)
    requires Recoverable(store.View())
    modifies store
    ensures
      var survey, t0 := Survey(disk.tree, disk.roots, catalog, faults, broken), old(store.View());
      first.None? ==>
        && second.Some? && RunningAttempts(store.View()) == {}
        && (|| (between == t0 && SettledSoFar(Sound(survey), t0, store.View(), RunningAttempts(t0)))
          || exists done, a :: RetriedFromError(survey, t0, between, store.View(), done, a))
  {
    hide SettledSoFar, CutShort, UniqueKeys, Loadable, DeletedIn, RetriedFromError, RecoversTo;
    ghost var survey, t0 := Survey(disk.tree, disk.roots, catalog, faults, broken), store.View();
    first := ReconcileStartupCrashes(store, disk, catalog, faults, broken);
    between := store.View();
    second := None;
    if first.None? {
      CutShortIsRecoverable(survey, t0, between);
      second := ReconcileStartupCrashes(store, disk, catalog, faults, SOUND_STORE);
      RetriedOrUntouched(survey, t0, between, store.View());
    }
  }
}
