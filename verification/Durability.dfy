/**
 The durable store: its tables as values, the statements that change them, and the object that holds
 them. Intent rows are kept in insertion order, which is the order of their row identifiers.
 */
module Durability {
  import opened Domain
  import opened Paths

  datatype JobRow = JobRow(state: string, reclaimed: nat)
  datatype AttemptRow = AttemptRow(jobId: nat, worker: nat, state: string, leaseExpiresAt: nat)
  datatype OperationRow = OperationRow(
    target: TargetId, mutation: Mutation, relPath: string, expected: Identity, bytes: nat, result: OpResult)
  datatype Lease = Lease(worker: nat, acquiredAt: nat, expiresAt: nat)

  datatype Tables = Tables(
    jobs: map<nat, JobRow>,
    attempts: map<nat, AttemptRow>,
    intents: seq<Intent>,
    operations: map<(nat, nat), OperationRow>,
    leases: map<string, Lease>)

  const RUNNING := "RUNNING"

  /** The key of the unique index on the intent table. */
  predicate KeyIs(row: Intent, attempt: nat, op: nat) {
    row.attempt == attempt && row.op == op
  }

  predicate HasKey(rows: seq<Intent>, attempt: nat, op: nat) {
    exists i :: 0 <= i < |rows| && KeyIs(rows[i], attempt, op)
  }

  /** The unique index on (attempt, operation). */
  ghost predicate UniqueKeys(rows: seq<Intent>) {
    forall i, j :: 0 <= i < j < |rows| ==> !KeyIs(rows[j], rows[i].attempt, rows[i].op)
  }

  /** An insert fails on a missing job (foreign key) or on a key that is taken (unique index). */
  function CommitIntent(t: Tables, row: Intent): Option<Tables> {
    if row.jobId !in t.jobs || HasKey(t.intents, row.attempt, row.op) then None
    else Some(t.(intents := t.intents + [row]))
  }

  function UpdateRow(row: Intent, attempt: nat, op: nat, state: IntentState): Intent {
    if KeyIs(row, attempt, op) then row.(state := state) else row
  }

  function SetIntentState(t: Tables, attempt: nat, op: nat, state: IntentState): Tables {
    t.(intents := seq(|t.intents|, i requires 0 <= i < |t.intents| => UpdateRow(t.intents[i], attempt, op, state)))
  }

  /** Records a result; without the job row the statement fails and the failure is only logged. */
  function RecordResult(t: Tables, jobId: nat, row: OperationRow): Tables {
    if jobId !in t.jobs then t else t.(operations := t.operations[(jobId, row.result.id) := row])
  }

  function SetAttemptState(t: Tables, attempt: nat, state: string): Tables {
    if attempt !in t.attempts then t
    else t.(attempts := t.attempts[attempt := t.attempts[attempt].(state := state)])
  }

  function SetJobState(t: Tables, jobId: nat, state: string, reclaimed: nat): Tables {
    if jobId !in t.jobs then t else t.(jobs := t.jobs[jobId := JobRow(state, reclaimed)])
  }

  /** Inserts a running attempt, or revives the row that already has this identifier. */
  function CreateAttempt(t: Tables, attempt: nat, jobId: nat, worker: nat, expiresAt: nat): Option<Tables> {
    if attempt in t.attempts then
      Some(t.(attempts := t.attempts[attempt := t.attempts[attempt].(state := RUNNING, leaseExpiresAt := expiresAt)]))
    else if jobId !in t.jobs then None
    else Some(t.(attempts := t.attempts[attempt := AttemptRow(jobId, worker, RUNNING, expiresAt)]))
  }

  /** A lease that stops `worker` from acquiring at time `now`: unexpired and held by another worker. */
  predicate Blocks(lease: Lease, worker: nat, now: nat) {
    lease.worker != worker && lease.expiresAt > now
  }

  function AcquireLease(t: Tables, resource: string, worker: nat, ttl: nat, now: nat): (Tables, bool) {
    if resource in t.leases && Blocks(t.leases[resource], worker, now) then (t, false)
    else (t.(leases := t.leases[resource := Lease(worker, now, now + ttl)]), true)
  }

  function ReleaseLease(t: Tables, resource: string, worker: nat): Tables {
    if resource in t.leases && t.leases[resource].worker == worker then t.(leases := t.leases - {resource}) else t
  }

  // ------------------------------------------------------------------ Reloading rows

  predicate IsWhitespace(c: char) {
    var n := c as int;
    || 9 <= n <= 13 || n == 0x20 || n == 0x85 || n == 0xA0 || n == 0x1680 || 0x2000 <= n <= 0x200A
    || n == 0x2028 || n == 0x2029 || n == 0x202F || n == 0x205F || n == 0x3000
  }

  /** The target identifiers that the store can reload; any other one makes the reload panic. */
  predicate LoadableTarget(id: TargetId) {
    (exists c :: c in id && !IsWhitespace(c)) && ByteLength(id) <= 512 && '\0' !in id && '\n' !in id
  }

  function MutationText(m: Mutation): string {
    match m
    case RemoveFile => "DELETE_FILE"
    case RemoveEmptyDir => "DELETE_DIR_EMPTY"
    case PruneRecursive => "PRUNE_DIR_RECURSIVE"
  }

  function StateText(s: IntentState): string {
    match s
    case Committed => "COMMITTED"
    case Mutating => "MUTATING"
    case VerifiedSuccess => "VERIFIED_SUCCESS"
    case VerifiedFailed => "VERIFIED_FAILED"
    case ResolvedUnknown => "RESOLVED_UNKNOWN"
  }

  function MutationOf(text: string): Mutation {
    if text == "DELETE_DIR_EMPTY" then RemoveEmptyDir
    else if text == "PRUNE_DIR_RECURSIVE" then PruneRecursive
    else RemoveFile
  }

  function StateOf(text: string): IntentState {
    if text == "MUTATING" then Mutating
    else if text == "VERIFIED_SUCCESS" then VerifiedSuccess
    else if text == "VERIFIED_FAILED" then VerifiedFailed
    else if text == "RESOLVED_UNKNOWN" then ResolvedUnknown
    else Committed
  }

  /** What a stored path reads back as: a path that no longer parses becomes the empty path. */
  function ReloadedPath(relPath: string): string {
    if relPath == "" || IsRelPath(relPath) then relPath else ""
  }

  /** A row after it went through the text columns and back. */
  function Reload(row: Intent): Intent
    requires LoadableTarget(row.target)
  {
    row.(relPath := ReloadedPath(row.relPath),
         mutation := MutationOf(MutationText(row.mutation)),
         state := StateOf(StateText(row.state)))
  }

  /** A row reads back unchanged exactly when its path parses; the text codes never lose anything. */
  lemma ReloadIsIdentity(row: Intent)
    requires LoadableTarget(row.target)
    ensures Reload(row) == row <==> row.relPath == "" || IsRelPath(row.relPath)
    ensures Reload(row).mutation == row.mutation && Reload(row).state == row.state
  {
    assert "DELETE_FILE"[7] == 'F' && "DELETE_DIR_EMPTY"[7] == 'D';
    assert |"DELETE_FILE"| == 11 && |"PRUNE_DIR_RECURSIVE"| == 19 && |"DELETE_DIR_EMPTY"| == 16;
    assert |"COMMITTED"| == 9 && |"MUTATING"| == 8 && |"VERIFIED_SUCCESS"| == 16 && |"VERIFIED_FAILED"| == 15;
    assert "VERIFIED_SUCCESS"[0] == 'V' && "RESOLVED_UNKNOWN"[0] == 'R';
  }

  // ------------------------------------------------------------------ Facts about rows

  /** What every statement does to existing rows: only the state moves, and never back to committed. */
  ghost predicate RowsEvolve(before: seq<Intent>, after: seq<Intent>) {
    && |before| <= |after|
    && forall i :: 0 <= i < |before| ==> RowEvolves(before[i], after[i])
  }

  ghost predicate RowEvolves(before: Intent, after: Intent) {
    after == before || (after == before.(state := after.state) && after.state != Committed)
  }

  class SqliteStore {
    var jobs: map<nat, JobRow>
    var attempts: map<nat, AttemptRow>
    var intents: seq<Intent>
    var operations: map<(nat, nat), OperationRow>
    var leases: map<string, Lease>

    ghost function View(): Tables
      reads this
    {
      Tables(jobs, attempts, intents, operations, leases)
    }

    constructor ()
      ensures View() == Tables(map[], map[], [], map[], map[])
    {
      jobs, attempts, intents, operations, leases := map[], map[], [], map[], map[];
    }

    method RegisterJob(jobId: nat, fault: bool) returns (ok: bool)
      modifies this`jobs
      ensures ok == !fault
      ensures jobs == if ok && jobId !in old(jobs) then old(jobs)[jobId := JobRow("ADMITTED", 0)] else old(jobs)
    {
      if !fault && jobId !in jobs {
        jobs := jobs[jobId := JobRow("ADMITTED", 0)];
      }
      ok := !fault;
    }

    /** Commits an intent; on failure nothing is stored. A fault stands for any other database error. */
    method CommitOperationIntent(row: Intent, fault: bool) returns (ok: bool)
      modifies this
      ensures ok <==> !fault && CommitIntent(old(View()), row).Some?
      ensures View() == if ok then CommitIntent(old(View()), row).value else old(View())
    {
      ok := !fault && row.jobId in jobs && !HasKey(intents, row.attempt, row.op);
      if ok {
        intents := intents + [row];
      }
    }

    method UpdateIntentState(attempt: nat, op: nat, state: IntentState, fault: bool) returns (ok: bool)
      modifies this`intents
      ensures ok == !fault
      ensures View() == if ok then SetIntentState(old(View()), attempt, op, state) else old(View())
    {
      if fault {
        return false;
      }
      var rows := intents;
      var i := 0;
      while i < |rows|
        invariant 0 <= i <= |rows| == |old(intents)|
        invariant forall k :: 0 <= k < i ==> rows[k] == UpdateRow(old(intents)[k], attempt, op, state)
        invariant forall k :: i <= k < |rows| ==> rows[k] == old(intents)[k]
      {
        rows := rows[i := UpdateRow(rows[i], attempt, op, state)];
        i := i + 1;
      }
      intents := rows;
      assert intents == SetIntentState(old(View()), attempt, op, state).intents;
      ok := true;
    }

    method RecordOperationResult(jobId: nat, row: OperationRow, fault: bool)
      modifies this`operations
      ensures View() == if fault then old(View()) else RecordResult(old(View()), jobId, row)
    {
      if !fault && jobId in jobs {
        operations := operations[(jobId, row.result.id) := row];
      }
    }

    method UpdateAttemptState(attempt: nat, state: string, fault: bool) returns (ok: bool)
      modifies this`attempts
      ensures ok == !fault
      ensures View() == if ok then SetAttemptState(old(View()), attempt, state) else old(View())
    {
      if !fault && attempt in attempts {
        attempts := attempts[attempt := attempts[attempt].(state := state)];
      }
      ok := !fault;
    }

    method UpdateJobState(jobId: nat, state: string, reclaimed: nat, fault: bool) returns (ok: bool)
      modifies this`jobs
      ensures ok == !fault
      ensures View() == if ok then SetJobState(old(View()), jobId, state, reclaimed) else old(View())
    {
      if !fault && jobId in jobs {
        jobs := jobs[jobId := JobRow(state, reclaimed)];
      }
      ok := !fault;
    }

    method GetRunningAttempts(fault: bool) returns (ids: Option<set<nat>>)
      ensures ids == if fault then None else Some(RunningAttempts(View()))
    {
      if fault {
        return None;
      }
      var running := set a | a in attempts && attempts[a].state == RUNNING;
      ids := Some(running);
    }

    /** The rows of one attempt in insertion order, read back from their text columns. */
    method GetOperationIntents(attempt: nat, fault: bool) returns (r: Option<seq<Intent>>)
      requires forall i :: 0 <= i < |intents| && intents[i].attempt == attempt ==> LoadableTarget(intents[i].target)
      ensures r == if fault then None else Some(RowsOf(intents, attempt))
    {
      if fault {
        return None;
      }
      var rows := [];
      var i := 0;
      while i < |intents|
        invariant 0 <= i <= |intents|
        invariant rows == RowsOf(intents[..i], attempt)
      {
        assert intents[..i + 1][..i] == intents[..i];
        if intents[i].attempt == attempt {
          rows := rows + [Reload(intents[i])];
        }
        i := i + 1;
      }
      assert intents[..i] == intents;
      r := Some(rows);
    }

    /** The largest attempt identifier in the table, 0 when there is none; a failed query also reads as 0. */
    method GetMaxAttemptId(fault: bool) returns (m: nat)
      ensures fault ==> m == 0
      ensures !fault ==> (forall a :: a in attempts ==> a <= m) && (m == 0 || m in attempts)
    {
      m := 0;
      if fault {
        return;
      }
      var rest := attempts.Keys;
      while rest != {}
        invariant rest <= attempts.Keys
        invariant forall a :: a in attempts && a !in rest ==> a <= m
        invariant m == 0 || m in attempts
        decreases rest
      {
        var a :| a in rest;
        if a > m {
          m := a;
        }
        rest := rest - {a};
      }
    }

    /** One transaction: an error on the way rolls it back. */
    method AcquireResourceLease(resource: string, worker: nat, ttl: nat, now: nat, fault: bool)
      returns (granted: Option<bool>)
      modifies this`leases
      ensures granted.None? <==> fault
      ensures fault ==> View() == old(View())
      ensures !fault ==> (View(), granted.value) == AcquireLease(old(View()), resource, worker, ttl, now)
    {
      if fault {
        return None;
      }
      var table := leases;
      if resource in table && table[resource].expiresAt <= now {
        table := table - {resource};
      }
      if resource in table && table[resource].worker != worker && table[resource].expiresAt > now {
        return Some(false);
      }
      leases := table[resource := Lease(worker, now, now + ttl)];
      assert leases == old(leases)[resource := Lease(worker, now, now + ttl)];
      return Some(true);
    }

    method ReleaseResourceLease(resource: string, worker: nat, fault: bool)
      modifies this`leases
      ensures View() == if fault then old(View()) else ReleaseLease(old(View()), resource, worker)
    {
      if !fault && resource in leases && leases[resource].worker == worker {
        leases := leases - {resource};
      }
    }

    method CreateRunningAttempt(attempt: nat, jobId: nat, worker: nat, expiresAt: nat, fault: bool) returns (ok: bool)
      modifies this`attempts
      ensures ok <==> !fault && CreateAttempt(old(View()), attempt, jobId, worker, expiresAt).Some?
      ensures View() == if ok then CreateAttempt(old(View()), attempt, jobId, worker, expiresAt).value else old(View())
    {
      if fault {
        return false;
      }
      if attempt in attempts {
        attempts := attempts[attempt := attempts[attempt].(state := RUNNING, leaseExpiresAt := expiresAt)];
        return true;
      }
      if jobId !in jobs {
        return false;
      }
      attempts := attempts[attempt := AttemptRow(jobId, worker, RUNNING, expiresAt)];
      return true;
    }
  }

  ghost function RunningAttempts(t: Tables): set<nat> {
    set a | a in t.attempts && t.attempts[a].state == RUNNING
  }

  /** The rows of one attempt, as they read back. */
  function RowsOf(rows: seq<Intent>, attempt: nat): seq<Intent>
    requires forall i :: 0 <= i < |rows| && rows[i].attempt == attempt ==> LoadableTarget(rows[i].target)
  {
    if rows == [] then []
    else
      var n := |rows| - 1;
      var front := RowsOf(rows[..n], attempt);
      if rows[n].attempt == attempt then front + [Reload(rows[n])] else front
  }
}
