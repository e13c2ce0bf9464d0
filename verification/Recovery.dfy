/** Startup recovery: attempts that a crash left running are settled by what the disk says about their intents. */
module Recovery {
  import opened Domain
  import opened Paths
  import opened Filesystem
  import opened Verification
  import opened Durability

  /**
   The statements of the store that fail: listing the attempts, loading the intents of an attempt,
   updating or recording an intent (by attempt and operation), updating an attempt or its job.
   */
  datatype StoreFaults = StoreFaults(
    list: bool, load: set<nat>, update: set<(nat, nat)>, record: set<(nat, nat)>, attempt: set<nat>, job: set<nat>)

  const SOUND_STORE := StoreFaults(false, {}, {}, {}, {}, {})

  /** What recovery looks at: the disk as it is, the catalog, and the faults of the system calls and of the store. */
  datatype Survey = Survey(
    tree: Tree, roots: Roots, catalog: Catalog, faults: map<(nat, nat), VerifyFaults>, store: StoreFaults)

  function FaultsFor(survey: Survey, row: Intent): VerifyFaults {
    if (row.attempt, row.op) in survey.faults then survey.faults[(row.attempt, row.op)] else VerifyFaults(map[], None)
  }

  /** The state that recovery gives to an intent, as it was read back. */
  function Settled(survey: Survey, row: Intent): IntentState {
    if row.target !in survey.catalog.targets then ResolvedUnknown
    else
      var base := survey.catalog.targets[row.target].base;
      var v := VerifyPath(survey.tree, survey.roots, base, Components(row.relPath), row.expected, FaultsFor(survey,
        row));
      if IsDeletion(v) then VerifiedSuccess
      else if v == StillPresent || v == IdentityMismatch then VerifiedFailed
      else ResolvedUnknown
  }

  function ResultOf(survey: Survey, row: Intent): OpResult {
    match Settled(survey, row)
    case VerifiedSuccess => OpResult(row.op, Success, row.bytes)
    case VerifiedFailed => OpResult(row.op, Failed, 0)
    case _ => OpResult(row.op, Skipped, 0)
  }

  function RecordOf(survey: Survey, row: Intent): OperationRow {
    OperationRow(row.target, row.mutation, row.relPath, row.expected, row.bytes, ResultOf(survey, row))
  }

  /** The statement that stores the verdict on an intent; an error is ignored. */
  function ResolveIntent(survey: Survey, t: Tables, row: Intent): Tables {
    if (row.attempt, row.op) in survey.store.update then t
    else SetIntentState(t, row.attempt, row.op, Settled(survey, row))
  }

  /** Something is recorded for this intent: its target is catalogued and the statement works. */
  predicate Recordable(survey: Survey, row: Intent) {
    row.target in survey.catalog.targets && (row.attempt, row.op) !in survey.store.record
  }

  /** The statement that records the outcome of an intent; an error is ignored. */
  function RecordIntent(survey: Survey, t: Tables, jobId: nat, row: Intent): Tables {
    if Recordable(survey, row) then RecordResult(t, jobId, RecordOf(survey, row)) else t
  }

  /** One intent settled. */
  function SettleOne(survey: Survey, t: Tables, jobId: nat, row: Intent): Tables {
    RecordIntent(survey, ResolveIntent(survey, t, row), jobId, row)
  }

  function SettleRows(survey: Survey, t: Tables, jobId: nat, rows: seq<Intent>): Tables {
    if rows == [] then t
    else SettleOne(survey, SettleRows(survey, t, jobId, rows[..|rows| - 1]), jobId, rows[|rows| - 1])
  }

  predicate AllDeleted(survey: Survey, rows: seq<Intent>) {
    forall r :: r in rows ==> Settled(survey, r) == VerifiedSuccess
  }

  predicate SomeUnknown(survey: Survey, rows: seq<Intent>) {
    exists r :: r in rows && Settled(survey, r) == ResolvedUnknown
  }

  function AttemptVerdict(survey: Survey, rows: seq<Intent>): string {
    if AllDeleted(survey, rows) then "RECONCILED" else if SomeUnknown(survey, rows) then "UNRESOLVED" else "FAILED"
  }

  function JobVerdict(survey: Survey, rows: seq<Intent>): string {
    if AllDeleted(survey, rows) then "RECOVERED" else if SomeUnknown(survey,
      rows) then "PARTIALLY_RECONCILED" else "FAILED"
  }

  /** The bytes credited to the job: the full estimate of every intent whose path is gone. */
  function Reclaimed(survey: Survey, rows: seq<Intent>): nat {
    if rows == [] then 0
    else SaturatingAdd(Reclaimed(survey, rows[..|rows| - 1]), ResultOf(survey, rows[|rows| - 1]).reclaimed)
  }

  predicate Loadable(rows: seq<Intent>, attempt: nat) {
    forall i :: 0 <= i < |rows| && rows[i].attempt == attempt ==> LoadableTarget(rows[i].target)
  }

  /** The tables after the intents of one attempt were settled. */
  function SettleIntents(survey: Survey, t: Tables, attempt: nat): Tables
    requires attempt in t.attempts && Loadable(t.intents, attempt)
  {
    SettleRows(survey, t, t.attempts[attempt].jobId, RowsOf(t.intents, attempt))
  }

  /**
   The tables after one attempt was settled, and whether the store went along: a failed load or update ends
   recovery.
   */
  function SettleAttempt(survey: Survey, t: Tables, attempt: nat): (Tables, bool)
    requires attempt in t.attempts && Loadable(t.intents, attempt)
  {
    var rows := RowsOf(t.intents, attempt);
    var jobId := t.attempts[attempt].jobId;
    if attempt in survey.store.load then (t, false)
    else
      var t1 := SettleIntents(survey, t, attempt);
      if attempt in survey.store.attempt then (t1, false)
      else
        var t2 := SetAttemptState(t1, attempt, AttemptVerdict(survey, rows));
        if attempt in survey.store.job then (t2, false)
        else (SetJobState(t2, jobId, JobVerdict(survey, rows), Reclaimed(survey, rows)), true)
  }

  // ------------------------------------------------------------------ Rows of an attempt

  lemma {:induction false} RowsOfMembers(rows: seq<Intent>, attempt: nat, r: Intent)
    requires Loadable(rows, attempt)
    ensures r in RowsOf(rows, attempt) <==>
      exists i :: 0 <= i < |rows| && rows[i].attempt == attempt && Reload(rows[i]) == r
  {
    hide Reload, LoadableTarget;
    if rows != [] {
      var n := |rows| - 1;
      RowsOfMembers(rows[..n], attempt, r);
      if r in RowsOf(rows[..n], attempt) {
        var i :| 0 <= i < n && rows[..n][i].attempt == attempt && Reload(rows[..n][i]) == r;
        assert rows[i] == rows[..n][i];
      }
      if i :| 0 <= i < |rows| && rows[i].attempt == attempt && Reload(rows[i]) == r {
        assert i < n ==> rows[..n][i] == rows[i];
      }
    }
  }

  lemma ReloadKeepsKey(row: Intent)
    requires LoadableTarget(row.target)
    ensures Reload(row).op == row.op && Reload(row).attempt == row.attempt && Reload(row).target == row.target
    ensures Reload(row).bytes == row.bytes
  {
  }

  /** A stored row after its attempt was settled. */
  function SettledRow(survey: Survey, row: Intent): Intent {
    if LoadableTarget(row.target) && (row.attempt, row.op) !in survey.store.update
    then row.(state := Settled(survey, Reload(row))) else row
  }

  /** The intents after the rows of the attempt with these operation identifiers were settled. */
  ghost predicate PartlySettled(survey: Survey, before: seq<Intent>, after: seq<Intent>, attempt: nat, done: set<nat>) {
    && |after| == |before|
    && forall i :: 0 <= i < |before| ==>
      after[i] == PartlySettledRow(survey, before[i], attempt, done)
  }

  function PartlySettledRow(survey: Survey, row: Intent, attempt: nat, done: set<nat>): Intent {
    if row.attempt == attempt && row.op in done then SettledRow(survey, row) else row
  }

  /** Resolving the intent that was read from row `own` changes that row and no other. */
  lemma ResolveOneRow(survey: Survey, row: Intent, now: Intent, own: Intent, attempt: nat, done: set<nat>, next: Intent)
    requires LoadableTarget(own.target) && own.attempt == attempt
    requires now == PartlySettledRow(survey, row, attempt, done)
    requires KeyIs(row, attempt, own.op) ==> row == own
    requires next == if (attempt, own.op) in survey.store.update then now
      else UpdateRow(now, attempt, own.op, Settled(survey, Reload(own)))
    ensures next == PartlySettledRow(survey, row, attempt, done + {own.op})
  {
    hide Settled, Reload, LoadableTarget;
  }

  lemma SettleOneRow(
    survey: Survey, before: seq<Intent>, t: Tables, attempt: nat, jobId: nat, done: set<nat>, row: Intent)
    requires Loadable(before, attempt) && UniqueKeys(before)
    requires PartlySettled(survey, before, t.intents, attempt, done)
    requires row in RowsOf(before, attempt)
    ensures PartlySettled(survey, before, ResolveIntent(survey, t, row).intents, attempt, done + {row.op})
    ensures SettleOne(survey, t, jobId, row).intents == ResolveIntent(survey, t, row).intents
  {
    hide Settled, Reload, RowsOf, LoadableTarget, RecordOf, PartlySettledRow;
    RowsOfMembers(before, attempt, row);
    var k :| 0 <= k < |before| && before[k].attempt == attempt && Reload(before[k]) == row;
    ReloadKeepsKey(before[k]);
    var after := ResolveIntent(survey, t, row).intents;
    forall i | 0 <= i < |before| ensures after[i] == PartlySettledRow(survey, before[i], attempt, done + {row.op}) {
      ResolveOneRow(survey, before[i], t.intents[i], before[k], attempt, done, after[i]);
    }
  }

  type Outcomes = map<(nat, nat), OperationRow>

  /** The outcome that was recorded for this intent. */
  predicate RecordedAs(survey: Survey, r: Intent, row: OperationRow) {
    Recordable(survey, r) && row == RecordOf(survey, r)
  }

  /** Every recorded outcome that was not there before is that of one of the rows. */
  ghost predicate RecordsFrom(
    survey: Survey, before: Outcomes, after: Outcomes, jobId: nat, rows: seq<Intent>)
  {
    && before.Keys <= after.Keys
    && forall key :: key in after ==>
      || (key in before && after[key] == before[key])
      || exists r :: r in rows && key == (jobId, r.op) && RecordedAs(survey, r, after[key])
  }

  /** The outcome under the key of `r` is that of one of the rows. */
  ghost predicate RecordedFor(survey: Survey, after: Outcomes, jobId: nat, rows: seq<Intent>, r: Intent) {
    (jobId, r.op) in after
    && exists q :: q in rows && q.op == r.op && RecordedAs(survey, q, after[(jobId, r.op)])
  }

  /** An outcome is recorded for every row that can be recorded. */
  ghost predicate RecordsAll(survey: Survey, after: Outcomes, jobId: nat, rows: seq<Intent>) {
    forall r :: r in rows && Recordable(survey, r) ==> RecordedFor(survey, after, jobId, rows, r)
  }

  lemma RecordedStays(
    survey: Survey, before: Outcomes, after: Outcomes, jobId: nat, front: seq<Intent>, row: Intent, r: Intent)
    requires RecordsFrom(survey, before, after, jobId, [row]) && RecordedFor(survey, before, jobId, front, r)
    ensures RecordedFor(survey, after, jobId, front + [row], r)
  {
    hide RecordOf;
    var key := (jobId, r.op);
    if key in before && after[key] == before[key] {
      var q :| q in front && q.op == r.op && RecordedAs(survey, q, before[key]);
      assert q in front + [row];
    } else {
      assert row in front + [row];
    }
  }

  lemma {:induction false} SettleRowsRecordsAll(survey: Survey, t: Tables, jobId: nat, rows: seq<Intent>)
    requires jobId in t.jobs
    ensures RecordsAll(survey, SettleRows(survey, t, jobId, rows).operations, jobId, rows)
    ensures jobId in SettleRows(survey, t, jobId, rows).jobs
  {
    hide RecordsFrom, RecordedFor, Settled, RecordOf;
    if rows != [] {
      var front, row := rows[..|rows| - 1], rows[|rows| - 1];
      var before, after := SettleRows(survey, t, jobId, front), SettleRows(survey, t, jobId, rows);
      SettleRowsRecordsAll(survey, t, jobId, front);
      SettleOneRecords(survey, before, jobId, row);
      assert rows == front + [row];
      forall r | r in rows && Recordable(survey, r) ensures RecordedFor(survey, after.operations, jobId, rows, r) {
        if r in front {
          RecordedStays(survey, before.operations, after.operations, jobId, front, row, r);
        } else {
          LastIsRecorded(survey, before, jobId, row, rows);
        }
      }
    }
  }

  lemma LastIsRecorded(survey: Survey, t: Tables, jobId: nat, row: Intent, rows: seq<Intent>)
    requires jobId in t.jobs && Recordable(survey, row) && row in rows
    ensures RecordedFor(survey, SettleOne(survey, t, jobId, row).operations, jobId, rows, row)
  {
    hide Settled, RecordOf;
    RecordNamesItsOperation(survey, row);
  }

  lemma RecordNamesItsOperation(survey: Survey, row: Intent)
    ensures RecordOf(survey, row).result.id == row.op
  {
    hide Settled;
  }

  lemma SettleOneRecords(survey: Survey, t: Tables, jobId: nat, row: Intent)
    ensures RecordsFrom(survey, t.operations, SettleOne(survey, t, jobId, row).operations, jobId, [row])
  {
    hide Settled, RecordOf;
    RecordNamesItsOperation(survey, row);
    assert row in [row];
  }

  lemma RecordsFromMore(
    survey: Survey, a: Outcomes, b: Outcomes, c: Outcomes, jobId: nat, front: seq<Intent>, row: Intent)
    requires RecordsFrom(survey, a, b, jobId, front) && RecordsFrom(survey, b, c, jobId, [row])
    ensures RecordsFrom(survey, a, c, jobId, front + [row])
  {
    hide RecordOf;
    forall key | key in c && !(key in a && c[key] == a[key])
      ensures exists r :: r in front + [row] && key == (jobId, r.op) && RecordedAs(survey, r, c[key])
    {
      if key in b && c[key] == b[key] {
        var r :| r in front && key == (jobId, r.op) && RecordedAs(survey, r, b[key]);
        assert r in front + [row];
      } else {
        assert row in front + [row];
      }
    }
  }

  lemma {:induction false} SettleRowsRecords(survey: Survey, t: Tables, jobId: nat, rows: seq<Intent>)
    ensures RecordsFrom(survey, t.operations, SettleRows(survey, t, jobId, rows).operations, jobId, rows)
  {
    hide SettleOne, RecordsFrom;
    if rows == [] {
      NoRecords(survey, t, jobId);
    } else {
      var front, row := rows[..|rows| - 1], rows[|rows| - 1];
      var before := SettleRows(survey, t, jobId, front);
      SettleRowsRecords(survey, t, jobId, front);
      SettleOneRecords(survey, before, jobId, row);
      RecordsFromMore(
        survey, t.operations, before.operations, SettleRows(survey, t, jobId, rows).operations, jobId, front, row);
      assert rows == front + [row];
    }
  }

  lemma NoRecords(survey: Survey, t: Tables, jobId: nat)
    ensures RecordsFrom(survey, t.operations, t.operations, jobId, [])
  {
  }

  /** Settling rows touches their states and the recorded outcomes, nothing else. */
  lemma {:induction false} SettleRowsShape(survey: Survey, t: Tables, attempt: nat, jobId: nat, rows: seq<Intent>)
    requires Loadable(t.intents, attempt) && UniqueKeys(t.intents)
    requires forall r :: r in rows ==> r in RowsOf(t.intents, attempt)
    ensures
      var t' := SettleRows(survey, t, jobId, rows);
      && t' == t.(intents := t'.intents, operations := t'.operations)
      && PartlySettled(survey, t.intents, t'.intents, attempt, set r | r in rows :: r.op)
  {
    hide Settled, Reload, RowsOf, LoadableTarget, RecordOf, UniqueKeys, PartlySettledRow, PartlySettled;
    if rows == [] {
      NothingResolved(survey, t.intents, attempt);
      assert (set r | r in rows :: r.op) == {};
    } else {
      var front, row := rows[..|rows| - 1], rows[|rows| - 1];
      forall r | r in front ensures r in rows {
      }
      SettleRowsShape(survey, t, attempt, jobId, front);
      var done := set r | r in front :: r.op;
      SettleOneRow(survey, t.intents, SettleRows(survey, t, jobId, front), attempt, jobId, done, row);
      assert rows == front + [row];
      assert (set r | r in rows :: r.op) == done + {row.op};
    }
  }

  lemma NothingResolved(survey: Survey, rows: seq<Intent>, attempt: nat)
    ensures PartlySettled(survey, rows, rows, attempt, {})
  {
  }

  /** Settling the intents of an attempt settles exactly its own rows, each by its own verdict. */
  lemma SettleIntentsShape(survey: Survey, t: Tables, attempt: nat)
    requires attempt in t.attempts && Loadable(t.intents, attempt) && UniqueKeys(t.intents)
    ensures
      var t' := SettleIntents(survey, t, attempt);
      && t' == t.(intents := t'.intents, operations := t'.operations)
      && |t'.intents| == |t.intents|
      && forall i :: 0 <= i < |t.intents| ==>
        t'.intents[i] == if t.intents[i].attempt == attempt then SettledRow(survey, t.intents[i]) else t.intents[i]
    ensures RecordsFrom(survey, t.operations, SettleIntents(survey, t, attempt).operations,
      t.attempts[attempt].jobId, RowsOf(t.intents, attempt))
    ensures t.attempts[attempt].jobId in t.jobs ==>
      RecordsAll(
        survey, SettleIntents(survey, t, attempt).operations, t.attempts[attempt].jobId, RowsOf(t.intents, attempt))
  {
    hide Settled, Reload, RowsOf, LoadableTarget, RecordOf, UniqueKeys, SettleRows, SettledRow, RecordsFrom, RecordsAll;
    var rows := RowsOf(t.intents, attempt);
    var jobId := t.attempts[attempt].jobId;
    SettleRowsShape(survey, t, attempt, jobId, rows);
    SettleRowsRecords(survey, t, jobId, rows);
    if jobId in t.jobs {
      SettleRowsRecordsAll(survey, t, jobId, rows);
    }
    forall i | 0 <= i < |t.intents| && t.intents[i].attempt == attempt
      ensures t.intents[i].op in set r | r in rows :: r.op
    {
      RowsOfMembers(t.intents, attempt, Reload(t.intents[i]));
      ReloadKeepsKey(t.intents[i]);
    }
  }

  // ------------------------------------------------------------------ Settling one attempt

  /** Settles one intent: look at the disk, store the state, record the outcome. */
  method SettleIntent(
    store: SqliteStore, disk: Disk, catalog: Catalog, faults: map<(nat, nat), VerifyFaults>, broken: StoreFaults,
    jobId: nat, row: Intent)
    returns (state: IntentState, credit: nat)
    modifies store
    ensures
      var survey := Survey(disk.tree, disk.roots, catalog, faults, broken);
      && state == Settled(survey, row)
      && credit == ResultOf(survey, row).reclaimed
      && store.View() == SettleOne(survey, old(store.View()), jobId, row)
  {
    hide SetIntentState, RecordResult, VerifyPath, Components;
    var key := (row.attempt, row.op);
    if row.target !in catalog.targets {
      var _ := store.UpdateIntentState(row.attempt, row.op, ResolvedUnknown, key in broken.update);
      return ResolvedUnknown, 0;
    }
    var fault := if key in faults then faults[key] else VerifyFaults(map[], None);
    var v := VerifyOperation(disk, catalog.targets[row.target].base, Components(row.relPath), row.expected, fault);
    var status;
    match v {
      case ConfirmedDeleted => state, status, credit := VerifiedSuccess, Success, row.bytes;
      case AlreadyGone => state, status, credit := VerifiedSuccess, Success, row.bytes;
      case StillPresent => state, status, credit := VerifiedFailed, Failed, 0;
      case IdentityMismatch => state, status, credit := VerifiedFailed, Failed, 0;
      case ParentUnavailable => state, status, credit := ResolvedUnknown, Skipped, 0;
      case TargetUnavailable => state, status, credit := ResolvedUnknown, Skipped, 0;
      case Unknown => state, status, credit := ResolvedUnknown, Skipped, 0;
    }
    var _ := store.UpdateIntentState(row.attempt, row.op, state, key in broken.update);
    var result := OpResult(row.op, status, credit);
    var outcome := OperationRow(row.target, row.mutation, row.relPath, row.expected, row.bytes, result);
    store.RecordOperationResult(jobId, outcome, key in broken.record);
  }

  /** Settles the loaded intents of one attempt and adds up the flags and the bytes. */
  method SettleLoaded(
    store: SqliteStore, disk: Disk, catalog: Catalog, faults: map<(nat, nat), VerifyFaults>, broken: StoreFaults,
    jobId: nat, rows: seq<Intent>)
    returns (recovered: bool, unknown: bool, total: nat)
    modifies store
    ensures
      var survey := Survey(disk.tree, disk.roots, catalog, faults, broken);
      && store.View() == SettleRows(survey, old(store.View()), jobId, rows)
      && (recovered <==> AllDeleted(survey, rows)) && (unknown <==> SomeUnknown(survey, rows))
      && total == Reclaimed(survey, rows)
  {
    hide Settled, SettleOne, ResultOf;
    ghost var survey := Survey(disk.tree, disk.roots, catalog, faults, broken);
    ghost var t0 := store.View();
    var i := 0;
    recovered, unknown, total := true, false, 0;
    while i < |rows|
      invariant 0 <= i <= |rows|
      invariant store.View() == SettleRows(survey, t0, jobId, rows[..i])
      invariant recovered <==> AllDeleted(survey, rows[..i])
      invariant unknown <==> SomeUnknown(survey, rows[..i])
      invariant total == Reclaimed(survey, rows[..i])
    {
      assert rows[..i + 1][..i] == rows[..i] && rows[..i + 1] == rows[..i] + [rows[i]];
      var state, credit := SettleIntent(store, disk, catalog, faults, broken, jobId, rows[i]);
      if state != VerifiedSuccess {
        recovered := false;
      }
      if state == ResolvedUnknown {
        unknown := true;
      }
      total := SaturatingAdd(total, credit);
      i := i + 1;
    }
    assert rows[..i] == rows;
  }

  /** Settles all intents of one attempt, then the attempt and its job; None is a store error that ends recovery. */
  method SettleRunningAttempt(
    store: SqliteStore, disk: Disk, catalog: Catalog, faults: map<(nat, nat), VerifyFaults>, broken: StoreFaults,
    attempt: nat, jobId: nat)
    returns (r: Option<bool>)
    requires attempt in store.attempts && store.attempts[attempt].jobId == jobId
    requires Loadable(store.intents, attempt)
    modifies store
    ensures
      var survey := Survey(disk.tree, disk.roots, catalog, faults, broken);
      && (store.View(), r.Some?) == SettleAttempt(survey, old(store.View()), attempt)
      && (r.Some? ==> (r.value <==> AllDeleted(survey, RowsOf(old(store.intents), attempt))))
  {
    hide SettleRows, LoadableTarget, RowsOf, AllDeleted, SomeUnknown, Reclaimed, SetAttemptState, SetJobState;
    var rows := store.GetOperationIntents(attempt, attempt in broken.load);
    if rows.None? {
      return None;
    }
    var recovered, unknown, total := SettleLoaded(store, disk, catalog, faults, broken, jobId, rows.value);
    var state := if recovered then "RECONCILED" else if unknown then "UNRESOLVED" else "FAILED";
    var marked := store.UpdateAttemptState(attempt, state, attempt in broken.attempt);
    if !marked {
      return None;
    }
    var updated := store.UpdateJobState(
      jobId, if recovered then "RECOVERED" else if unknown then "PARTIALLY_RECONCILED" else "FAILED", total,
      attempt in broken.job);
    r := if updated then Some(recovered) else None;
  }

  // ------------------------------------------------------------------ What the verdict means

  /** The intent's target is catalogued and nothing is reachable at its path. */
  ghost predicate RowGone(survey: Survey, row: Intent) {
    && row.target in survey.catalog.targets
    && PathGone(survey.tree, survey.roots, survey.catalog.targets[row.target].base, Components(row.relPath))
  }

  lemma SettledMeaning(survey: Survey, row: Intent)
    ensures Settled(survey, row) == VerifiedSuccess ==> RowGone(survey, row)
    ensures (row.attempt, row.op) !in survey.faults ==> (Settled(survey, row) == VerifiedSuccess <==>
      RowGone(survey, row))
  {
    hide VerifyPath, PathGone, Components;
    if row.target in survey.catalog.targets {
      var base := survey.catalog.targets[row.target].base;
      VerifierIsSoundAndComplete(
        survey.tree, survey.roots, base, Components(row.relPath), row.expected, FaultsFor(survey, row));
    }
  }

  lemma VerdictIsFinal(survey: Survey, rows: seq<Intent>)
    ensures AttemptVerdict(survey, rows) != RUNNING
    ensures AttemptVerdict(survey, rows) == "RECONCILED" <==> AllDeleted(survey, rows)
  {
    assert |"RECONCILED"| == 10 && |"UNRESOLVED"| == 10 && |"FAILED"| == 6 && |RUNNING| == 7;
    assert "RECONCILED"[0] == 'R' && "UNRESOLVED"[0] == 'U';
  }

  /**
   An attempt is marked reconciled only if every one of its intents has a catalogued target and an
   absent path; without verification faults it is so exactly then.
   */
  lemma ReconciledExactly(survey: Survey, t: Tables, attempt: nat)
    requires Loadable(t.intents, attempt)
    ensures
      var allGone := forall i :: 0 <= i < |t.intents| && t.intents[i].attempt == attempt ==>
        RowGone(survey, Reload(t.intents[i]));
      var reconciled := AttemptVerdict(survey, RowsOf(t.intents, attempt)) == "RECONCILED";
      && (reconciled ==> allGone)
      && (survey.faults == map[] ==> (reconciled <==> allGone))
  {
    hide Settled, RowGone, LoadableTarget, Reload, RowsOf, AttemptVerdict;
    var rows := RowsOf(t.intents, attempt);
    VerdictIsFinal(survey, rows);
    forall i | 0 <= i < |t.intents| && t.intents[i].attempt == attempt
      ensures Reload(t.intents[i]) in rows
      ensures Settled(survey, Reload(t.intents[i])) == VerifiedSuccess ==> RowGone(survey, Reload(t.intents[i]))
    {
      RowsOfMembers(t.intents, attempt, Reload(t.intents[i]));
      SettledMeaning(survey, Reload(t.intents[i]));
    }
    forall r | r in rows
      ensures exists i :: 0 <= i < |t.intents| && t.intents[i].attempt == attempt && Reload(t.intents[i]) == r
      ensures survey.faults == map[] && RowGone(survey, r) ==> Settled(survey, r) == VerifiedSuccess
    {
      RowsOfMembers(t.intents, attempt, r);
      SettledMeaning(survey, r);
    }
  }
}
