/**
 A crash at any step followed by recovery: recovery confirms every removal and every success of the
 run that it finds in the journal, and credits at least what the run had credited.
 */
module CrashRecovery {
  import opened Domain
  import opened Paths
  import opened Filesystem
  import opened Verification
  import opened Durability
  import opened Authorization
  import opened Execution
  import opened CrashSafety
  import opened Ordering
  import opened Accounting
  import opened Recovery
  import opened Reconciliation

  /** What the types of the plan promise: its targets and paths went through their parsers. */
  ghost predicate Storable(job: Job) {
    forall k: nat :: IsDeletionOp(job, k) ==> LoadableTarget(Del(job, k).target) && IsRelPath(Del(job, k).relPath)
  }

  /** Recovery on the disk as the crash left it, without faults of its own. */
  function Aftermath(job: Job, tree: Tree): Survey {
    Survey(tree, job.roots, job.catalog, map[], SOUND_STORE)
  }

  // ------------------------------------------------------------------ Bytes of absent paths

  ghost predicate StoredGone(survey: Survey, row: Intent, attempt: nat) {
    row.attempt == attempt && LoadableTarget(row.target) && RowGone(survey, Reload(row))
  }

  /** The estimates of the attempt's intents whose paths are absent. */
  ghost function BytesGone(survey: Survey, rows: seq<Intent>, attempt: nat): nat {
    if rows == [] then 0
    else
      var n := |rows| - 1;
      BytesGone(survey, rows[..n], attempt) + (if StoredGone(survey, rows[n], attempt) then rows[n].bytes else 0)
  }

  /** Recovery without faults credits exactly those bytes, up to the 64-bit ceiling. */
  lemma {:induction false} ReclaimedIsBytesGone(survey: Survey, rows: seq<Intent>, attempt: nat)
    requires Loadable(rows, attempt) && survey.faults == map[]
    ensures Reclaimed(survey, RowsOf(rows, attempt)) == Min(BytesGone(survey, rows, attempt), U64_MAX)
  {
    hide RowGone, Settled, LoadableTarget, Reload;
    if rows != [] {
      var n := |rows| - 1;
      ReclaimedIsBytesGone(survey, rows[..n], attempt);
      if rows[n].attempt == attempt {
        var front, row := RowsOf(rows[..n], attempt), Reload(rows[n]);
        ReloadKeepsKey(rows[n]);
        SettledMeaning(survey, row);
        assert RowsOf(rows, attempt) == front + [row];
        assert (front + [row])[..|front|] == front;
      }
    }
  }

  /** The estimates of all intents of the attempt. */
  ghost function BytesCommitted(rows: seq<Intent>, attempt: nat): nat {
    if rows == [] then 0
    else
      var n := |rows| - 1;
      BytesCommitted(rows[..n], attempt) + (if rows[n].attempt == attempt then rows[n].bytes else 0)
  }

  /** Even with faults, recovery never credits more than the committed estimates. */
  lemma {:induction false} RecoveredWithinEstimates(survey: Survey, rows: seq<Intent>, attempt: nat)
    requires Loadable(rows, attempt)
    ensures Reclaimed(survey, RowsOf(rows, attempt)) <= BytesCommitted(rows, attempt)
  {
    hide Settled, LoadableTarget, Reload;
    if rows != [] {
      var n := |rows| - 1;
      RecoveredWithinEstimates(survey, rows[..n], attempt);
      if rows[n].attempt == attempt {
        var front, row := RowsOf(rows[..n], attempt), Reload(rows[n]);
        ReloadKeepsKey(rows[n]);
        assert RowsOf(rows, attempt) == front + [row];
        assert (front + [row])[..|front|] == front;
      }
    }
  }

  /**
   On a disk that only lost entries and in a table that only moved on, no bytes are lost; a newly absent path
   adds its own.
   */
  lemma {:induction false} BytesGoneGrow(
    survey: Survey, tree: Tree, before: seq<Intent>, after: seq<Intent>, attempt: nat, r: nat)
    requires Below(tree, survey.tree) && RowsEvolve(before, after) && r < |before|
    ensures BytesGone(survey, before, attempt) <= BytesGone(survey.(tree := tree), after, attempt)
    ensures StoredGone(survey.(tree := tree), before[r], attempt) && !StoredGone(survey, before[r], attempt) ==>
      BytesGone(survey, before, attempt) + before[r].bytes <= BytesGone(survey.(tree := tree), after, attempt)
    decreases |after|
  {
    hide StoredGone;
    var n := |after| - 1;
    if |before| == |after| {
      assert RowEvolves(before[n], after[n]);
      StaysGone(survey, tree, before[n], after[n], attempt);
      if n > 0 {
        BytesGoneGrow(survey, tree, before[..n], after[..n], attempt, if r < n then r else 0);
      }
    } else {
      BytesGoneGrow(survey, tree, before, after[..n], attempt, r);
    }
  }

  lemma StaysGone(survey: Survey, tree: Tree, before: Intent, after: Intent, attempt: nat)
    requires Below(tree, survey.tree) && RowEvolves(before, after)
    ensures StoredGone(survey, before, attempt) ==> StoredGone(survey.(tree := tree), after, attempt)
    ensures StoredGone(survey.(tree := tree), before, attempt) <==> StoredGone(survey.(tree := tree), after, attempt)
  {
    hide Components, IsRelPath, LoadableTarget;
    if StoredGone(survey, before, attempt) {
      var base := survey.catalog.targets[before.target].base;
      AbsenceIsMonotone(tree, survey.tree, survey.roots[base], Components(Reload(before).relPath));
    }
  }

  // ------------------------------------------------------------------ Credits never exceed them

  ghost function Pending(job: Job, s: State): nat {
    if s.phase.Mutated? && s.phase.ok && IsDeletionOp(job, s.i) then Del(job, s.i).bytes else 0
  }

  ghost predicate CreditInv(job: Job, s: State) {
    Credits(s.results) + Pending(job, s) <= BytesGone(Aftermath(job, s.tree), s.db.intents, job.attempt)
  }

  /** For a stored intent of operation `k`, absence as recovery sees it is absence of the operation's path. */
  lemma StoredGoneIsGone(job: Job, tree: Tree, row: Intent, k: nat)
    requires Storable(job) && IsDeletionOp(job, k) && IsRowOf(job, row, k)
    ensures StoredGone(Aftermath(job, tree), row, job.attempt) <==> Gone(job, tree, Del(job, k))
  {
    hide Components, IsRelPath, LoadableTarget, PathGone;
    assert LoadableTarget(Del(job, k).target) && IsRelPath(Del(job, k).relPath);
  }

  /** What books a result adds at most what was pending. */
  lemma CreditIsPending(job: Job, env: seq<OpEnv>, s: State, cached: bool)
    requires WellFormed(job, env, s)
    ensures
      var s' := Step(job, env, s, cached);
      !s.phase.ParentOpen? ==> Credits(s'.results) + Pending(job, s') <= Credits(s.results) + Pending(job, s)
  {
    hide Step;
    var s' := Step(job, env, s, cached);
    StepMoves(job, env, s, cached);
    StepBooks(job, env, s, cached);
    if BooksLast(s, s') {
      assert s'.results[..|s'.results| - 1] == s.results;
      if s.phase.Mutated? && s'.phase.Resolved? {
        ResultWithinPending(job, env, s, cached);
      }
    }
  }

  lemma ResultWithinPending(job: Job, env: seq<OpEnv>, s: State, cached: bool)
    requires WellFormed(job, env, s) && s.phase.Mutated? && Step(job, env, s, cached).phase.Resolved?
    ensures Step(job, env, s, cached).phase.result.reclaimed <= Pending(job, s)
  {
    hide VerifyAtParent, SetIntentState, Tally;
  }

  lemma MutationKeepsCreditInv(job: Job, env: seq<OpEnv>, tree0: Tree, s: State, cached: bool)
    requires WellFormed(job, env, s) && Storable(job) && CatalogOk(job.catalog)
    requires DiskInv(job, tree0, s) && RowInv(job, s) && CreditInv(job, s)
    requires s.phase.ParentOpen?
    ensures CreditInv(job, Step(job, env, s, cached))
  {
    hide Step, Walk, Components, Permitted, BytesGone, StoredGone, Credits, Storable;
    var s' := Step(job, env, s, cached);
    var d := Del(job, s.i);
    StepMoves(job, env, s, cached);
    StepTouchesDisk(job, env, s, cached);
    StepWrites(job, env, s, cached);
    MutationEffect(s.tree, d, s.phase.dir, s.phase.leaf, env[s.i].mutation);
    var r :| 0 <= r < |s.db.intents| && IsRowOf(job, s.db.intents[r], s.i);
    StepRowsEvolve(job, env, s, cached);
    BytesGoneGrow(Aftermath(job, s.tree), s'.tree, s.db.intents, s'.db.intents, job.attempt, r);
    if s'.phase.ok {
      StoredGoneIsGone(job, s.tree, s.db.intents[r], s.i);
      StoredGoneIsGone(job, s'.tree, s.db.intents[r], s.i);
      NewlyGone(job, env, tree0, s, cached);
    }
  }

  /** A successful mutation turns a present path into an absent one. */
  lemma NewlyGone(job: Job, env: seq<OpEnv>, tree0: Tree, s: State, cached: bool)
    requires WellFormed(job, env, s) && CatalogOk(job.catalog)
    requires DiskInv(job, tree0, s) && s.phase.ParentOpen?
    requires Step(job, env, s, cached).phase == Mutated(s.phase.dir, s.phase.leaf, true)
    ensures !Gone(job, s.tree, Del(job, s.i)) && Gone(job, Step(job, env, s, cached).tree, Del(job, s.i))
  {
    hide Step, Walk, Components, Mutate, Absent;
    var d := Del(job, s.i);
    var path := Components(d.relPath);
    var root := job.roots[job.catalog.targets[d.target].base];
    StepKeepsDiskInv(job, env, tree0, s, cached);
    StepTouchesDisk(job, env, s, cached);
    StepMoves(job, env, s, cached);
    MutationEffect(s.tree, d, s.phase.dir, s.phase.leaf, env[s.i].mutation);
    AbsentAtParent(s.tree, root, path, 1);
  }

  lemma StepKeepsCreditInv(job: Job, env: seq<OpEnv>, tree0: Tree, s: State, cached: bool)
    requires WellFormed(job, env, s) && Storable(job) && CatalogOk(job.catalog)
    requires DiskInv(job, tree0, s) && RowInv(job, s) && CreditInv(job, s)
    ensures CreditInv(job, Step(job, env, s, cached))
  {
    hide Step, Storable, BytesGone, DiskInv, RowInv, Credits, Pending;
    if s.phase.ParentOpen? {
      MutationKeepsCreditInv(job, env, tree0, s, cached);
    } else {
      var s' := Step(job, env, s, cached);
      StepTouchesDisk(job, env, s, cached);
      CreditIsPending(job, env, s, cached);
      StepRowsEvolve(job, env, s, cached);
      SameDiskGrow(Aftermath(job, s.tree), s.db.intents, s'.db.intents, job.attempt);
    }
  }

  lemma SameDiskGrow(survey: Survey, before: seq<Intent>, after: seq<Intent>, attempt: nat)
    requires RowsEvolve(before, after)
    ensures BytesGone(survey, before, attempt) <= BytesGone(survey, after, attempt)
  {
    hide StoredGone;
    if before != [] {
      BytesGoneGrow(survey, survey.tree, before, after, attempt, 0);
      assert survey.(tree := survey.tree) == survey;
    }
  }

  lemma {:induction false} CreditInvAlways(job: Job, env: seq<OpEnv>, tree0: Tree, db0: Tables, cached: bool, n: nat)
    requires |env| == |job.plan.operations| && CatalogOk(job.catalog) && Storable(job)
    ensures CreditInv(job, Run(job, env, Init(tree0, db0), cached, n))
    decreases n
  {
    hide Step, Storable, DiskInv, RowInv, ResultsInv;
    if n > 0 {
      CreditInvAlways(job, env, tree0, db0, cached, n - 1);
      PrerequisitesAlways(job, env, tree0, db0, cached, n - 1);
      StepKeepsCreditInv(job, env, tree0, Run(job, env, Init(tree0, db0), cached, n - 1), cached);
    }
  }

  // ------------------------------------------------------------------ The journal at the crash

  ghost predicate TablesInv(job: Job, db0: Tables, s: State) {
    && s.db.jobs == db0.jobs && s.db.attempts == db0.attempts && s.db.leases == db0.leases
    && UniqueKeys(s.db.intents)
    && Loadable(s.db.intents, job.attempt)
  }

  ghost predicate SameOtherTables(t: Tables, t': Tables) {
    t'.jobs == t.jobs && t'.attempts == t.attempts && t'.leases == t.leases
  }

  lemma GateKeepsOtherTables(job: Job, e: OpEnv, s: State, op: Operation)
    ensures SameOtherTables(s.db, StepGate(job, e, s, op).db)
  {
    hide Decide, IntentFor, HasKey;
  }

  lemma UpdateKeepsOtherTables(t: Tables, attempt: nat, op: nat, state: IntentState)
    ensures SameOtherTables(t, SetIntentState(t, attempt, op, state))
  {
  }

  lemma RecordKeepsOtherTables(t: Tables, jobId: nat, row: OperationRow)
    ensures SameOtherTables(t, RecordResult(t, jobId, row))
  {
  }

  lemma StepKeepsOtherTables(job: Job, env: seq<OpEnv>, s: State, cached: bool)
    requires WellFormed(job, env, s)
    ensures SameOtherTables(s.db, Step(job, env, s, cached).db)
  {
    hide Mutate, VerifyAtParent, StepOpen, StepGate, ResultRow, Judge, SetIntentState, RecordResult;
    if s.i < |job.plan.operations| {
      var op := job.plan.operations[s.i];
      GateKeepsOtherTables(job, env[s.i], s, op);
      if s.phase.MarkedMutating? {
        OpenWrites(job, env[s.i], s, op, Del(job, s.i), cached);
      } else if InFlight(s.phase) {
        var d, e := Del(job, s.i), env[s.i];
        UpdateKeepsOtherTables(s.db, job.attempt, op.id, Mutating);
        if s.phase.Mutated? {
          var verdict := VerifyAtParent(s.tree, s.phase.dir, s.phase.leaf, d.expected, e.verify);
          UpdateKeepsOtherTables(s.db, job.attempt, op.id, Judge(s.phase.ok, verdict, d.bytes).0);
        } else if s.phase.Resolved? {
          RecordKeepsOtherTables(s.db, job.plan.jobId, ResultRow(d, s.phase.result));
        }
      }
    }
  }

  lemma SetStateKeepsKeys(t: Tables, attempt: nat, op: nat, state: IntentState)
    ensures
      var rows := SetIntentState(t, attempt, op, state).intents;
      && |rows| == |t.intents|
      && forall i :: 0 <= i < |rows| ==>
        && rows[i].attempt == t.intents[i].attempt
        && rows[i].op == t.intents[i].op && rows[i].target == t.intents[i].target
  {
  }

  lemma SameKeys(before: seq<Intent>, after: seq<Intent>, attempt: nat)
    requires |before| == |after|
    requires forall i :: 0 <= i < |before| ==>
      after[i].attempt == before[i].attempt && after[i].op == before[i].op && after[i].target == before[i].target
    ensures UniqueKeys(before) ==> UniqueKeys(after)
    ensures Loadable(before, attempt) ==> Loadable(after, attempt)
  {
    hide LoadableTarget;
  }

  lemma StepKeepsTablesInv(job: Job, env: seq<OpEnv>, db0: Tables, s: State, cached: bool)
    requires WellFormed(job, env, s) && Storable(job) && TablesInv(job, db0, s)
    ensures TablesInv(job, db0, Step(job, env, s, cached))
  {
    hide Step, LoadableTarget, IsRelPath, SetIntentState;
    var s' := Step(job, env, s, cached);
    StepKeepsOtherTables(job, env, s, cached);
    StepWrites(job, env, s, cached);
    StepMoves(job, env, s, cached);
    if s.i < |job.plan.operations| {
      var op := job.plan.operations[s.i];
      if s.phase.AtOp? && s'.phase.IntentStored? {
        assert IsDeletionOp(job, s.i);
      } else if s.phase.IntentStored? && s'.phase.MarkedMutating? {
        SetStateKeepsKeys(s.db, job.attempt, op.id, Mutating);
        SameKeys(s.db.intents, s'.db.intents, job.attempt);
      } else if s.phase.Mutated? && s'.phase.Resolved? {
        var state :| s'.db == SetIntentState(s.db, job.attempt, op.id, state);
        SetStateKeepsKeys(s.db, job.attempt, op.id, state);
        SameKeys(s.db.intents, s'.db.intents, job.attempt);
      }
    }
  }

  lemma {:induction false} TablesInvAlways(job: Job, env: seq<OpEnv>, tree0: Tree, db0: Tables, cached: bool, n: nat)
    requires |env| == |job.plan.operations| && Storable(job)
    requires UniqueKeys(db0.intents) && Loadable(db0.intents, job.attempt)
    ensures TablesInv(job, db0, Run(job, env, Init(tree0, db0), cached, n))
    decreases n
  {
    hide Step, Storable, UniqueKeys, Loadable;
    if n > 0 {
      TablesInvAlways(job, env, tree0, db0, cached, n - 1);
      StepKeepsTablesInv(job, env, db0, Run(job, env, Init(tree0, db0), cached, n - 1), cached);
    }
  }

  // ------------------------------------------------------------------ Main result

  /** An entry that is missing somewhere along a path that used to exist makes the path absent. */
  lemma {:induction false} MissingEntryMakesAbsent(
    small: Tree, big: Tree, dir: Identity, path: seq<Name>, edge: Edge, at: nat)
    requires path != [] && ValidComponent(path[|path| - 1]) && Below(small, big)
    requires Walk(big, dir, path[..|path| - 1], map[], at) == Ok(edge.dir)
    requires edge.name == path[|path| - 1] && edge !in small
    ensures Absent(small, dir, path)
    decreases |path|
  {
    if |path| > 1 {
      var front := path[..|path| - 1];
      var child := OpenChild(big, dir, front[0], None).value;
      assert path[1..][..|path[1..]| - 1] == front[1..];
      MissingEntryMakesAbsent(small, big, child, path[1..], edge, at + 1);
    }
  }

  lemma RemovedIsGone(job: Job, tree0: Tree, tree: Tree, k: nat, edge: Edge)
    requires Storable(job) && Below(tree, tree0)
    requires Names(job, tree0, k, edge) && edge !in tree
    ensures Gone(job, tree, Del(job, k))
  {
    hide Walk, Components, IsRelPath, LoadableTarget, Absent;
    var d := Del(job, k);
    var path := Components(d.relPath);
    ComponentsAreValid(d.relPath);
    MissingEntryMakesAbsent(tree, tree0, job.roots[job.catalog.targets[d.target].base], path, edge, 1);
  }

  /** Recovery marks the intent of an operation whose path is gone as a verified success. */
  lemma GoneIsConfirmed(job: Job, tree: Tree, db: Tables, t: Tables, done: set<nat>, k: nat, r: nat)
    requires Storable(job) && IsDeletionOp(job, k) && Gone(job, tree, Del(job, k))
    requires IntentsSettled(Aftermath(job, tree), db, t, done) && job.attempt in done
    requires r < |db.intents| && IsRowOf(job, db.intents[r], k)
    ensures VerifiedRow(job, t.intents, k)
  {
    hide Gone, IsRelPath, LoadableTarget, RowGone, Settled, Reload;
    var survey := Aftermath(job, tree);
    StoredGoneIsGone(job, tree, db.intents[r], k);
    ReloadKeepsKey(db.intents[r]);
    SettledMeaning(survey, Reload(db.intents[r]));
    assert t.intents[r] == SettledRow(survey, db.intents[r]);
    assert IsRowOf(job, t.intents[r], k) && t.intents[r].state == VerifiedSuccess;
  }

  ghost predicate Confirmed(job: Job, tree0: Tree, rows: seq<Intent>, edge: Edge) {
    exists k :: Names(job, tree0, k, edge) && Permitted(job, k) && VerifiedRow(job, rows, k)
  }

  /** `t` is what recovery without faults makes of the tables and the disk that the crash left. */
  ghost predicate Recovered(job: Job, s: State, t: Tables) {
    SettledSoFar(Aftermath(job, s.tree), s.db, t, RunningAttempts(s.db))
  }

  lemma RecoveredIntents(job: Job, s: State, t: Tables)
    requires Recovered(job, s, t)
    ensures IntentsSettled(Aftermath(job, s.tree), s.db, t, RunningAttempts(s.db))
  {
  }

  /**
   Crash anywhere, then recover without faults. Every entry that the run had removed is named by a
   permitted operation whose intent recovery resolves as a verified success, and every success that the
   run had booked is confirmed, whatever other attempts were running and in whatever order they are settled.
   */
  lemma CrashThenRecover(job: Job, env: seq<OpEnv>, tree0: Tree, db0: Tables, n: nat, t: Tables)
    requires |env| == |job.plan.operations| && CatalogOk(job.catalog) && Storable(job)
    requires job.attempt in RunningAttempts(db0)
    requires Recovered(job, Run(job, env, Init(tree0, db0), true, n), t)
    ensures
      var s := Run(job, env, Init(tree0, db0), true, n);
      && (forall edge :: Removed(tree0, s.tree, edge) ==> Confirmed(job, tree0, t.intents, edge))
      && (forall k: nat :: Succeeded(job, s, k) ==> IsDeletionOp(job, k) && VerifiedRow(job, t.intents, k))
  {
    hide Step, Run, Storable, Recovered, IntentsSettled;
    var s := Run(job, env, Init(tree0, db0), true, n);
    AttemptsStay(job, env, tree0, db0, n);
    RecoveredIntents(job, s, t);
    forall edge | Removed(tree0, s.tree, edge) ensures Confirmed(job, tree0, t.intents, edge) {
      RemovalIsConfirmed(job, env, tree0, db0, n, t, edge);
    }
    forall k: nat | Succeeded(job, s, k) ensures IsDeletionOp(job, k) && VerifiedRow(job, t.intents, k) {
      SuccessIsConfirmed(job, env, tree0, db0, n, t, k);
    }
  }

  /** A run leaves attempts, jobs and leases alone. */
  lemma {:induction false} AttemptsStay(job: Job, env: seq<OpEnv>, tree0: Tree, db0: Tables, n: nat)
    requires |env| == |job.plan.operations|
    ensures SameOtherTables(db0, Run(job, env, Init(tree0, db0), true, n).db)
    decreases n
  {
    hide Step;
    if n > 0 {
      AttemptsStay(job, env, tree0, db0, n - 1);
      StepKeepsOtherTables(job, env, Run(job, env, Init(tree0, db0), true, n - 1), true);
    }
  }

  lemma RemovalIsConfirmed(job: Job, env: seq<OpEnv>, tree0: Tree, db0: Tables, n: nat, t: Tables, edge: Edge)
    requires |env| == |job.plan.operations| && CatalogOk(job.catalog) && Storable(job)
    requires Removed(tree0, Run(job, env, Init(tree0, db0), true, n).tree, edge)
    requires
      var s := Run(job, env, Init(tree0, db0), true, n);
      job.attempt in RunningAttempts(s.db) && IntentsSettled(Aftermath(job, s.tree), s.db, t, RunningAttempts(s.db))
    ensures Confirmed(job, tree0, t.intents, edge)
  {
    hide Step, Run, Storable, Permitted, Names, Gone, IntentsSettled;
    var s := Run(job, env, Init(tree0, db0), true, n);
    CrashSafe(job, env, tree0, db0, n);
    var k :| Explained(job, tree0, s.db.intents, k, edge);
    NamedIsDeletion(job, tree0, k, edge);
    var r :| 0 <= r < |s.db.intents| && IsRowOf(job, s.db.intents[r], k);
    RemovedIsGone(job, tree0, s.tree, k, edge);
    GoneIsConfirmed(job, s.tree, s.db, t, RunningAttempts(s.db), k, r);
  }

  lemma NamedIsDeletion(job: Job, tree0: Tree, k: nat, edge: Edge)
    requires Names(job, tree0, k, edge)
    ensures IsDeletionOp(job, k)
  {
  }

  lemma SuccessIsConfirmed(job: Job, env: seq<OpEnv>, tree0: Tree, db0: Tables, n: nat, t: Tables, k: nat)
    requires |env| == |job.plan.operations| && CatalogOk(job.catalog) && Storable(job)
    requires Succeeded(job, Run(job, env, Init(tree0, db0), true, n), k)
    requires
      var s := Run(job, env, Init(tree0, db0), true, n);
      job.attempt in RunningAttempts(s.db) && IntentsSettled(Aftermath(job, s.tree), s.db, t, RunningAttempts(s.db))
    ensures IsDeletionOp(job, k) && VerifiedRow(job, t.intents, k)
  {
    hide Step, Run, Storable, Gone, IntentsSettled;
    var s := Run(job, env, Init(tree0, db0), true, n);
    SuccessInvAlways(job, env, tree0, db0, true, n);
    assert SuccessIsReal(job, s, k);
    var r :| 0 <= r < |s.db.intents| && IsRowOf(job, s.db.intents[r], k);
    GoneIsConfirmed(job, s.tree, s.db, t, RunningAttempts(s.db), k, r);
  }
}
