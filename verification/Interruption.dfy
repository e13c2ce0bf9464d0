/**
 Recovery itself can be interrupted, by a crash between any two of its statements or by a store error:
 what such a recovery leaves.
 */
module Interruption {
  import opened Domain
  import opened Paths
  import opened Filesystem
  import opened Verification
  import opened Durability
  import opened Recovery
  import opened Reconciliation

  // ------------------------------------------------------------------ Recovery as statements

  /** The statements with which recovery settles an attempt. */
  datatype Statement =
    | Resolve(row: Intent)
    | Record(jobId: nat, row: Intent)
    | Mark(attempt: nat, verdict: string)
    | Credit(jobId: nat, verdict: string, bytes: nat)

  function Exec(survey: Survey, t: Tables, statement: Statement): Tables {
    match statement
    case Resolve(row) => ResolveIntent(survey, t, row)
    case Record(jobId, row) => RecordIntent(survey, t, jobId, row)
    case Mark(attempt, verdict) => SetAttemptState(t, attempt, verdict)
    case Credit(jobId, verdict, bytes) => SetJobState(t, jobId, verdict, bytes)
  }

  function ExecAll(survey: Survey, t: Tables, statements: seq<Statement>): Tables {
    if statements == [] then t
    else Exec(survey, ExecAll(survey, t, statements[..|statements| - 1]), statements[|statements| - 1])
  }

  function RowStatements(jobId: nat, rows: seq<Intent>): (statements: seq<Statement>)
    ensures |statements| == 2 * |rows|
  {
    if rows == [] then []
    else RowStatements(jobId, rows[..|rows| - 1]) + [Resolve(rows[|rows| - 1]), Record(jobId, rows[|rows| - 1])]
  }

  function Statements(survey: Survey, t: Tables, a: nat): (statements: seq<Statement>)
    requires a in t.attempts && Loadable(t.intents, a)
    ensures |statements| == 2 * |RowsOf(t.intents, a)| + 2
  {
    var rows, jobId := RowsOf(t.intents, a), t.attempts[a].jobId;
    RowStatements(jobId, rows)
    + [Mark(a, AttemptVerdict(survey, rows)), Credit(jobId, JobVerdict(survey, rows), Reclaimed(survey, rows))]
  }

  lemma ExecEnd(survey: Survey, t: Tables, statements: seq<Statement>, last: Statement)
    ensures ExecAll(survey, t, statements + [last]) == Exec(survey, ExecAll(survey, t, statements), last)
  {
    assert (statements + [last])[..|statements|] == statements;
  }

  lemma ExecNothing(survey: Survey, t: Tables)
    ensures ExecAll(survey, t, []) == t
  {
  }

  lemma {:induction false} RowStatementsSettle(survey: Survey, t: Tables, jobId: nat, rows: seq<Intent>)
    ensures ExecAll(survey, t, RowStatements(jobId, rows)) == SettleRows(survey, t, jobId, rows)
  {
    hide ResolveIntent, RecordIntent, ExecAll;
    if rows == [] {
      ExecNothing(survey, t);
    } else {
      var front, row := rows[..|rows| - 1], rows[|rows| - 1];
      RowStatementsSettle(survey, t, jobId, front);
      ExecEnd(survey, t, RowStatements(jobId, front), Resolve(row));
      ExecEnd(survey, t, RowStatements(jobId, front) + [Resolve(row)], Record(jobId, row));
      assert RowStatements(jobId, rows) == RowStatements(jobId, front) + [Resolve(row)] + [Record(jobId, row)];
    }
  }

  /** How many of the statements are carried out before a store error ends recovery at this attempt. */
  function Reach(survey: Survey, t: Tables, a: nat): nat
    requires a in t.attempts && Loadable(t.intents, a)
  {
    var n := |RowsOf(t.intents, a)|;
    if a in survey.store.load then 0
    else if a in survey.store.attempt then 2 * n
    else if a in survey.store.job then 2 * n + 1
    else 2 * n + 2
  }

  /** The statements for the intents come first, then the attempt, then the job. */
  lemma StatementOrder(survey: Survey, t: Tables, a: nat)
    requires a in t.attempts && Loadable(t.intents, a)
    ensures
      var rows, jobId, all := RowsOf(t.intents, a), t.attempts[a].jobId, Statements(survey, t, a);
      var n := 2 * |rows|;
      && all[..n] == RowStatements(jobId, rows)
      && all[..n + 1] == all[..n] + [Mark(a, AttemptVerdict(survey, rows))]
      && all == all[..n + 1] + [Credit(jobId, JobVerdict(survey, rows), Reclaimed(survey, rows))]
  {
    hide RowStatements, RowsOf, LoadableTarget, AttemptVerdict, JobVerdict, Reclaimed;
  }

  /** All statements for the intents. */
  lemma IntentStatements(survey: Survey, t: Tables, a: nat)
    requires a in t.attempts && Loadable(t.intents, a)
    ensures ExecAll(survey, t, Statements(survey, t, a)[..2 * |RowsOf(t.intents, a)|]) == SettleIntents(survey, t, a)
  {
    hide Statements, ExecAll, RowStatements, SettleRows, RowsOf, LoadableTarget;
    StatementOrder(survey, t, a);
    RowStatementsSettle(survey, t, t.attempts[a].jobId, RowsOf(t.intents, a));
  }

  /** All statements but the last. */
  lemma MarkedStatements(survey: Survey, t: Tables, a: nat)
    requires a in t.attempts && Loadable(t.intents, a)
    ensures ExecAll(survey, t, Statements(survey, t, a)[..2 * |RowsOf(t.intents, a)| + 1])
      == SetAttemptState(SettleIntents(survey, t, a), a, AttemptVerdict(survey, RowsOf(t.intents, a)))
  {
    hide Statements, ExecAll, RowsOf, LoadableTarget, AttemptVerdict, SettleIntents, SetAttemptState;
    var rows, all := RowsOf(t.intents, a), Statements(survey, t, a);
    StatementOrder(survey, t, a);
    IntentStatements(survey, t, a);
    ExecEnd(survey, t, all[..2 * |rows|], Mark(a, AttemptVerdict(survey, rows)));
  }

  lemma AllStatements(survey: Survey, t: Tables, a: nat)
    requires a in t.attempts && Loadable(t.intents, a)
    ensures
      var rows := RowsOf(t.intents, a);
      var t2 := SetAttemptState(SettleIntents(survey, t, a), a, AttemptVerdict(survey, rows));
      ExecAll(survey, t, Statements(survey, t, a))
        == SetJobState(t2, t.attempts[a].jobId, JobVerdict(survey, rows), Reclaimed(survey, rows))
  {
    hide Statements, ExecAll, RowsOf, LoadableTarget, AttemptVerdict, JobVerdict, Reclaimed, SettleIntents;
    hide SetAttemptState, SetJobState;
    var rows, all := RowsOf(t.intents, a), Statements(survey, t, a);
    StatementOrder(survey, t, a);
    MarkedStatements(survey, t, a);
    ExecEnd(
      survey, t, all[..2 * |rows| + 1], Credit(t.attempts[a].jobId, JobVerdict(survey, rows), Reclaimed(survey, rows)));
  }

  /** Settling an attempt is carrying out its statements, all of them or those before the fatal error. */
  lemma StatementsSettle(survey: Survey, t: Tables, a: nat)
    requires a in t.attempts && Loadable(t.intents, a)
    ensures SettleAttempt(survey, t, a).0 == ExecAll(survey, t, Statements(survey, t, a)[..Reach(survey, t, a)])
    ensures SettleAttempt(survey, t, a).1 <==> Reach(survey, t, a) == |Statements(survey, t, a)|
  {
    hide Statements, ExecAll, RowsOf, LoadableTarget, AttemptVerdict, JobVerdict, Reclaimed, SettleIntents;
    hide SetAttemptState, SetJobState;
    IntentStatements(survey, t, a);
    MarkedStatements(survey, t, a);
    AllStatements(survey, t, a);
    ExecNothing(survey, t);
    var all := Statements(survey, t, a);
    assert all[..0] == [] && all[..|all|] == all;
  }

  /** The tables when the attempts before `a` are settled and the first `n` statements for `a` are carried out. */
  function Crashed(survey: Survey, t0: Tables, before: seq<nat>, a: nat, n: nat): Tables {
    var t := SettleInOrder(survey, t0, before).0;
    if a in t.attempts && Loadable(t.intents, a) && n <= |Statements(survey, t, a)|
    then ExecAll(survey, t, Statements(survey, t, a)[..n]) else t
  }

  // ------------------------------------------------------------------ What an interruption leaves

  /** The attempts whose row is no longer running. */
  function Closed(done: set<nat>, a: nat, marked: bool): set<nat> {
    if marked then done + {a} else done
  }

  /** The intents of the attempts in `done`, and those of `a` with these operation identifiers, are settled. */
  ghost predicate RowsReached(
    survey: Survey, before: seq<Intent>, after: seq<Intent>, done: set<nat>, a: nat, ops: set<nat>)
  {
    && |after| == |before|
    && forall i :: 0 <= i < |before| ==> after[i] == ReachedRow(survey, before[i], done, a, ops)
  }

  function ReachedRow(survey: Survey, row: Intent, done: set<nat>, a: nat, ops: set<nat>): Intent {
    if row.attempt in done || (row.attempt == a && row.op in ops) then SettledRow(survey, row) else row
  }

  ghost predicate AllReached(rows: seq<Intent>, a: nat, ops: set<nat>) {
    forall i :: 0 <= i < |rows| && rows[i].attempt == a ==> rows[i].op in ops
  }

  /**
   A recovery that had settled the attempts in `done` and was interrupted at attempt `a`, after resolving
   the intents in `ops` and, if `marked`, after closing the attempt but before crediting its job.
   */
  ghost predicate Interrupted(
    survey: Survey, t0: Tables, t: Tables, done: set<nat>, a: nat, ops: set<nat>, marked: bool)
  {
    && done <= RunningAttempts(t0) && a in RunningAttempts(t0) && a !in done
    && t.leases == t0.leases
    && AttemptsSettled(survey, t0, t, Closed(done, a, marked))
    && RowsReached(survey, t0.intents, t.intents, done, a, ops)
    && (marked ==> AllReached(t0.intents, a, ops))
    && JobsSettled(survey, t0, t, done)
    && OutcomesWithin(survey, t0, t, done + {a})
    && forall b :: b in Closed(done, a, marked) ==> OutcomesStoredFor(survey, t0, t, done + {a}, b)
  }

  ghost predicate InterruptedSomewhere(
    survey: Survey, t0: Tables, t: Tables, done: set<nat>, a: nat, marked: bool)
  {
    exists ops :: Interrupted(survey, t0, t, done, a, ops, marked)
  }

  lemma ReachedMore(
    survey: Survey, t0: Tables, t: Tables, t': Tables, done: set<nat>, a: nat, ops: set<nat>)
    requires IntentsSettled(survey, t0, t, done) && a !in done
    requires PartlySettled(survey, t.intents, t'.intents, a, ops)
    ensures RowsReached(survey, t0.intents, t'.intents, done, a, ops)
  {
    hide SettledRow;
    SettledKeys(survey, t0, t, done);
  }

  /** The statements for the intents up to the `n`-th one. */
  lemma {:induction false} RowPrefix(jobId: nat, rows: seq<Intent>, n: nat)
    requires n <= 2 * |rows|
    ensures RowStatements(jobId, rows)[..n]
      == RowStatements(jobId, rows[..n / 2]) + (if n % 2 == 1 then [Resolve(rows[n / 2])] else [])
    decreases |rows|
  {
    if rows == [] {
      assert rows[..0] == [];
    } else {
      var last := |rows| - 1;
      var front := rows[..last];
      if n <= 2 * last {
        RowPrefix(jobId, front, n);
        assert front[..n / 2] == rows[..n / 2];
      } else {
        RowPrefix(jobId, front, 2 * last);
        assert rows[..n / 2] == if n == 2 * last + 1 then front else rows;
        assert front[..last] == front;
      }
    }
  }

  /** After `n` statements for the rows: which are resolved, and that nothing else moved. */
  lemma RowsAfter(survey: Survey, t: Tables, a: nat, n: nat) returns (ops: set<nat>)
    requires a in t.attempts && Loadable(t.intents, a) && UniqueKeys(t.intents) && n <= 2 * |RowsOf(t.intents, a)|
    ensures
      var t' := ExecAll(survey, t, Statements(survey, t, a)[..n]);
      && t' == t.(intents := t'.intents, operations := t'.operations)
      && PartlySettled(survey, t.intents, t'.intents, a, ops)
      && RecordsFrom(
        survey, t.operations, t'.operations, t.attempts[a].jobId, RowsOf(t.intents, a)[..n / 2])
  {
    hide Statements, ExecAll, RowStatements, SettleRows, RowsOf, LoadableTarget, PartlySettled;
    hide UniqueKeys, RecordsFrom, Settled;
    var rows, jobId := RowsOf(t.intents, a), t.attempts[a].jobId;
    var m := n / 2;
    RowPrefix(jobId, rows, n);
    StatementOrder(survey, t, a);
    assert Statements(survey, t, a)[..n] == Statements(survey, t, a)[..2 * |rows|][..n];
    RowStatementsSettle(survey, t, jobId, rows[..m]);
    SettleRowsShape(survey, t, a, jobId, rows[..m]);
    SettleRowsRecords(survey, t, jobId, rows[..m]);
    ops := set r | r in rows[..m] :: r.op;
    var t1 := SettleRows(survey, t, jobId, rows[..m]);
    if n % 2 == 1 {
      ExecEnd(survey, t, RowStatements(jobId, rows[..m]), Resolve(rows[m]));
      SettleOneRow(survey, t.intents, t1, a, jobId, ops, rows[m]);
      ops := ops + {rows[m].op};
    } else {
      assert RowStatements(jobId, rows[..m]) + [] == RowStatements(jobId, rows[..m]);
    }
  }

  lemma InterruptedInRows(
    survey: Survey, t0: Tables, t: Tables, done: set<nat>, a: nat, t': Tables, ops: set<nat>, rows: seq<Intent>)
    requires Recoverable(t0) && SettledSoFar(survey, t0, t, done)
    requires done <= RunningAttempts(t0) && a in RunningAttempts(t0) && a !in done
    requires t' == t.(intents := t'.intents, operations := t'.operations)
    requires PartlySettled(survey, t.intents, t'.intents, a, ops)
    requires forall r :: r in rows ==> r in RowsOf(t0.intents, a)
    requires RecordsFrom(survey, t.operations, t'.operations, t0.attempts[a].jobId, rows)
    ensures Interrupted(survey, t0, t', done, a, ops, false)
  {
    hide RowsOf, Loadable, RecordsFrom, AttemptsSettled, IntentsSettled, JobsSettled, OutcomesWithin, OutcomesStoredFor;
    hide PartlySettled, RowsReached, UniqueKeys;
    ReachedMore(survey, t0, t, t', done, a, ops);
    PartsFrame(survey, t0, t, t', done, a);
    NextOutcomesWithin(survey, t0, t, t', done, a, rows);
    forall b | b in done ensures OutcomesStoredFor(survey, t0, t', done + {a}, b) {
      NextOutcomesKept(survey, t0, t, t', done, a, rows, b);
    }
  }

  /** Interrupted between closing the attempt and crediting its job. */
  lemma InterruptedBeforeCredit(survey: Survey, t0: Tables, t': Tables, done: set<nat>, a: nat)
    requires SettledParts(survey, t0, t', done + {a}, done + {a}, done)
    requires done <= RunningAttempts(t0) && a in RunningAttempts(t0) && a !in done
    ensures Interrupted(survey, t0, t', done, a, OpsOf(t0.intents, a), true)
  {
    hide SettledRow, AttemptsSettled, JobsSettled, OutcomesWithin, OutcomesStoredFor;
    OpsOfAll(t0.intents, a);
  }

  ghost function OpsOf(rows: seq<Intent>, a: nat): set<nat> {
    set i | 0 <= i < |rows| && rows[i].attempt == a :: rows[i].op
  }

  lemma OpsOfAll(rows: seq<Intent>, a: nat)
    ensures AllReached(rows, a, OpsOf(rows, a))
  {
  }

  lemma PrefixIsOrder(before: seq<nat>, a: nat)
    requires IsOrder(before + [a], Elements(before + [a]))
    ensures IsOrder(before, Elements(before)) && a !in Elements(before)
    ensures Elements(before + [a]) == Elements(before) + {a}
  {
    var all := before + [a];
    forall i, j | 0 <= i < j < |before| ensures before[i] != before[j] {
      assert all[i] != all[j];
    }
    forall i | 0 <= i < |before| ensures before[i] != a {
      assert all[i] != all[|before|];
    }
  }

  /** Every crash point of every recovery, in any order, is such an interruption. */
  lemma CrashIsInterruption(survey: Survey, t0: Tables, before: seq<nat>, a: nat, n: nat)
    requires Recoverable(t0) && IsOrder(before + [a], Elements(before + [a]))
    requires Elements(before + [a]) <= RunningAttempts(t0) && Loadable(t0.intents, a)
    requires SettleInOrder(survey, t0, before).1 && n <= 2 * |RowsOf(t0.intents, a)| + 1
    ensures
      var marked := n == 2 * |RowsOf(t0.intents, a)| + 1;
      InterruptedSomewhere(survey, t0, Crashed(survey, t0, before, a, n), Elements(before), a, marked)
  {
    hide SettledSoFar, SettledParts, Statements, RowsOf, LoadableTarget, UniqueKeys, Interrupted, PartlySettled;
    hide SettleInOrder, RecordsFrom;
    var done := Elements(before);
    PrefixIsOrder(before, a);
    InOrderSettles(survey, t0, before);
    var t := SettleInOrder(survey, t0, before).0;
    NextIsUntouched(survey, t0, t, done, a);
    var rows := RowsOf(t.intents, a);
    var t' := Crashed(survey, t0, before, a, n);
    StatementsSettle(survey, t, a);
    if n <= 2 * |rows| {
      var ops := RowsAfter(survey, t, a, n);
      assert forall r :: r in rows[..n / 2] ==> r in rows;
      InterruptedInRows(survey, t0, t, done, a, t', ops, rows[..n / 2]);
    } else {
      MarkedStatements(survey, t, a);
      AfterMark(survey, t0, t, done, a);
      InterruptedBeforeCredit(survey, t0, t', done, a);
    }
  }

  /** The tables `t` are those of a crash after `n` statements for the `k`-th attempt of this order. */
  ghost predicate CrashPoint(survey: Survey, t0: Tables, order: seq<nat>, t: Tables, k: nat, n: nat) {
    && k < |order| && SettleInOrder(survey, t0, order[..k]).1 && Loadable(t0.intents, order[k])
    && n <= 2 * |RowsOf(t0.intents, order[k])| + 1
    && t == Crashed(survey, t0, order[..k], order[k], n)
  }

  /** A fatal store error leaves the tables as a crash right before the failing statement does. */
  lemma {:induction false} ErrorIsACrashPoint(survey: Survey, t0: Tables, order: seq<nat>)
    requires Recoverable(t0) && IsOrder(order, Elements(order)) && Elements(order) <= RunningAttempts(t0)
    requires !SettleInOrder(survey, t0, order).1
    ensures exists k: nat, n: nat :: CrashPoint(survey, t0, order, SettleInOrder(survey, t0, order).0, k, n)
  {
    hide Statements, RowsOf, LoadableTarget, UniqueKeys, SettleAttempt, SettledSoFar;
    var last := |order| - 1;
    var front, a := order[..last], order[last];
    assert order == front + [a];
    PrefixIsOrder(front, a);
    var t := SettleInOrder(survey, t0, front).0;
    if SettleInOrder(survey, t0, front).1 {
      InOrderSettles(survey, t0, front);
      NextIsUntouched(survey, t0, t, Elements(front), a);
      StatementsSettle(survey, t, a);
      assert CrashPoint(survey, t0, order, SettleInOrder(survey, t0, order).0, last, Reach(survey, t, a));
    } else {
      ErrorIsACrashPoint(survey, t0, front);
      var k: nat, n: nat :| CrashPoint(survey, t0, front, t, k, n);
      assert order[..k] == front[..k] && order[k] == front[k];
      assert CrashPoint(survey, t0, order, t, k, n);
    }
  }
}
