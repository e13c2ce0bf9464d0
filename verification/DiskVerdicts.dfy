/**
 What recovery writes down, in terms of the disk: every state, status and credit for an intent whose path is
 gone, for one whose path is still there, and for one of which neither can be said.
 */
module DiskVerdicts {
  import opened Domain
  import opened Paths
  import opened Filesystem
  import opened Verification
  import opened Durability
  import opened Recovery
  import opened Reconciliation
  import opened Accounting
  import opened CrashRecovery

  // ------------------------------------------------------------------ One intent

  /** The intent's target is catalogued and its path leads to an entry, whichever that is. */
  ghost predicate RowPresent(survey: Survey, row: Intent) {
    && row.target in survey.catalog.targets
    && PathPresent(survey.tree, survey.roots, survey.catalog.targets[row.target].base, Components(row.relPath))
  }

  ghost predicate RowUnclear(survey: Survey, row: Intent) {
    !RowGone(survey, row) && !RowPresent(survey, row)
  }

  ghost predicate StateFits(survey: Survey, row: Intent, state: IntentState) {
    && (state == VerifiedSuccess <==> RowGone(survey, row))
    && (state == VerifiedFailed <==> RowPresent(survey, row))
    && (state == ResolvedUnknown <==> RowUnclear(survey, row))
  }

  ghost predicate ResultFits(survey: Survey, row: Intent, result: OpResult) {
    && result.id == row.op
    && (result.status == Success <==> RowGone(survey, row))
    && (result.status == Failed <==> RowPresent(survey, row))
    && (result.status == Skipped <==> RowUnclear(survey, row))
    && result.reclaimed == if RowGone(survey, row) then row.bytes else 0
  }

  /** The recorded outcome describes the intent and carries its result. */
  ghost predicate OutcomeFits(survey: Survey, row: Intent, outcome: OperationRow) {
    && outcome.target == row.target && outcome.mutation == row.mutation && outcome.relPath == row.relPath
    && outcome.expected == row.expected && outcome.bytes == row.bytes
    && ResultFits(survey, row, outcome.result)
  }

  /** Even with faults a walk that gets through got through what is on the disk. */
  lemma SeenIsPresent(
    tree: Tree, roots: Roots, base: seq<string>, path: seq<Name>, expected: Identity, faults: VerifyFaults)
    requires VerifyPath(tree, roots, base, path, expected, faults) in {StillPresent, IdentityMismatch}
    ensures PathPresent(tree, roots, base, path)
  {
    hide VerifyPath, Walk;
    VerdictsUnderFaults(tree, roots, base, path, expected, faults);
    WalkWithoutFaults(tree, roots[base], path[..|path| - 1], faults.opens, 1, 1);
  }

  /** Without faults the state and the result are fixed by the disk; with faults a firm verdict is still right. */
  lemma SettledExactly(survey: Survey, row: Intent)
    ensures Settled(survey, row) == VerifiedSuccess ==> RowGone(survey, row)
    ensures Settled(survey, row) == VerifiedFailed ==> RowPresent(survey, row)
    ensures (row.attempt, row.op) !in survey.faults ==>
      StateFits(survey, row, Settled(survey, row)) && OutcomeFits(survey, row, RecordOf(survey, row))
  {
    hide VerifyPath, PathGone, PathPresent, Components, Stops, Misses;
    SettledMeaning(survey, row);
    if row.target in survey.catalog.targets {
      var base, path := survey.catalog.targets[row.target].base, Components(row.relPath);
      VerdictsExactly(survey.tree, survey.roots, base, path, row.expected);
      if Settled(survey, row) == VerifiedFailed {
        SeenIsPresent(survey.tree, survey.roots, base, path, row.expected, FaultsFor(survey, row));
      }
    }
  }

  // ------------------------------------------------------------------ One attempt

  ghost predicate AllGone(survey: Survey, rows: seq<Intent>) {
    forall r :: r in rows ==> RowGone(survey, r)
  }

  ghost predicate SomeUnclear(survey: Survey, rows: seq<Intent>) {
    exists r :: r in rows && RowUnclear(survey, r)
  }

  /** Something is still there, and everything is gone or still there. */
  ghost predicate SomeLeft(survey: Survey, rows: seq<Intent>) {
    && (exists r :: r in rows && RowPresent(survey, r))
    && forall r :: r in rows ==> RowGone(survey, r) || RowPresent(survey, r)
  }

  ghost predicate AttemptFits(survey: Survey, rows: seq<Intent>, state: string) {
    && (state == "RECONCILED" <==> AllGone(survey, rows))
    && (state == "UNRESOLVED" <==> SomeUnclear(survey, rows))
    && (state == "FAILED" <==> SomeLeft(survey, rows))
  }

  ghost predicate JobFits(survey: Survey, rows: seq<Intent>, state: string) {
    && (state == "RECOVERED" <==> AllGone(survey, rows))
    && (state == "PARTIALLY_RECONCILED" <==> SomeUnclear(survey, rows))
    && (state == "FAILED" <==> SomeLeft(survey, rows))
  }

  lemma CasesAreDisjoint(survey: Survey, row: Intent)
    ensures !(RowGone(survey, row) && RowPresent(survey, row))
  {
    hide VerifyPath, PathGone, PathPresent, Components, Stops, Misses;
    if row.target in survey.catalog.targets {
      var base, path := survey.catalog.targets[row.target].base, Components(row.relPath);
      VerdictsExactly(survey.tree, survey.roots, base, path, row.expected);
    }
  }

  /** The flags of the loop over the intents, in terms of the disk. */
  lemma FlagsExactly(survey: Survey, rows: seq<Intent>)
    requires survey.faults == map[]
    ensures AllDeleted(survey, rows) <==> AllGone(survey, rows)
    ensures SomeUnknown(survey, rows) <==> SomeUnclear(survey, rows)
    ensures SomeLeft(survey, rows) <==> !AllGone(survey, rows) && !SomeUnclear(survey, rows)
    ensures !(AllGone(survey, rows) && SomeUnclear(survey, rows))
  {
    hide Settled, RowGone, RowPresent, RecordOf;
    forall r | r in rows
      ensures StateFits(survey, r, Settled(survey, r)) && !(RowGone(survey, r) && RowPresent(survey, r))
    {
      SettledExactly(survey, r);
      CasesAreDisjoint(survey, r);
    }
  }

  /** Without faults, which of its three states an attempt and its job end in. */
  lemma AttemptVerdictsExactly(survey: Survey, rows: seq<Intent>)
    requires survey.faults == map[]
    ensures AttemptFits(survey, rows, AttemptVerdict(survey, rows))
    ensures JobFits(survey, rows, JobVerdict(survey, rows))
  {
    hide AllDeleted, SomeUnknown, AllGone, SomeUnclear, SomeLeft;
    FlagsExactly(survey, rows);
    NamesDiffer();
  }

  lemma NamesDiffer()
    ensures "RECONCILED" != "UNRESOLVED" && "RECONCILED" != "FAILED" && "UNRESOLVED" != "FAILED"
    ensures "RECOVERED" != "PARTIALLY_RECONCILED" && "RECOVERED" != "FAILED" && "PARTIALLY_RECONCILED" != "FAILED"
  {
    assert |"RECONCILED"| == 10 && |"UNRESOLVED"| == 10 && |"FAILED"| == 6;
    assert |"RECOVERED"| == 9 && |"PARTIALLY_RECONCILED"| == 20;
    assert "RECONCILED"[0] == 'R' && "UNRESOLVED"[0] == 'U';
  }

  // ------------------------------------------------------------------ A whole recovery

  /** The job's row is the one that its attempt `a` deserves. */
  ghost predicate JobRowFits(survey: Survey, t0: Tables, a: nat, j: nat, row: JobRow) {
    && a in RunningAttempts(t0) && t0.attempts[a].jobId == j && Loadable(t0.intents, a)
    && JobFits(survey, RowsOf(t0.intents, a), row.state)
    && row.reclaimed == Min(BytesGone(survey, t0.intents, a), U64_MAX)
  }

  /** There is something to record about the intent: its target is catalogued and the statement does not fail. */
  ghost predicate HasOutcome(survey: Survey, r: Intent) {
    r.target in survey.catalog.targets && (r.attempt, r.op) !in survey.store.record
  }

  ghost predicate IsOutcomeOf(survey: Survey, t0: Tables, a: nat, key: (nat, nat), outcome: OperationRow) {
    && a in RunningAttempts(t0) && Loadable(t0.intents, a)
    && exists r ::
      && r in RowsOf(t0.intents, a) && key == (t0.attempts[a].jobId, r.op)
      && HasOutcome(survey, r) && OutcomeFits(survey, r, outcome)
  }

  /** An outcome of some running attempt stands under the key. */
  ghost predicate HasOutcomeAt(survey: Survey, t0: Tables, t: Tables, key: (nat, nat)) {
    key in t.operations && exists b :: IsOutcomeOf(survey, t0, b, key, t.operations[key])
  }

  /** Every intent of the attempt that has an outcome has it recorded, or that of another attempt of the job. */
  ghost predicate OutcomesStand(survey: Survey, t0: Tables, t: Tables, a: nat) {
    a in t0.attempts && Loadable(t0.intents, a) && t0.attempts[a].jobId in t0.jobs ==>
      forall r :: r in RowsOf(t0.intents, a) && HasOutcome(survey, r) ==>
        HasOutcomeAt(survey, t0, t, (t0.attempts[a].jobId, r.op))
  }

  lemma OutcomesStandFor(survey: Survey, t0: Tables, t: Tables, a: nat)
    requires survey.faults == map[] && OutcomesStoredFor(survey, t0, t, RunningAttempts(t0), a)
    ensures OutcomesStand(survey, t0, t, a)
  {
    hide RowsOf, LoadableTarget, RecordOf, OutcomeFits, IsOutcomeOf, OutcomeOf;
    if a in t0.attempts && Loadable(t0.intents, a) && t0.attempts[a].jobId in t0.jobs {
      forall r | r in RowsOf(t0.intents, a) && HasOutcome(survey, r)
        ensures HasOutcomeAt(survey, t0, t, (t0.attempts[a].jobId, r.op))
      {
        var key := (t0.attempts[a].jobId, r.op);
        assert Recordable(survey, r);
        var b :| b in RunningAttempts(t0) && OutcomeOf(survey, t0, b, key, t.operations[key]);
        OutcomeIsRight(survey, t0, b, key, t.operations[key]);
      }
    }
  }

  lemma JobRowIsRight(survey: Survey, t0: Tables, a: nat, j: nat, row: JobRow)
    requires survey.faults == map[] && a in RunningAttempts(t0) && WritesJob(survey, t0, a, j, row)
    ensures JobRowFits(survey, t0, a, j, row)
  {
    hide RowsOf, LoadableTarget, JobVerdict, Reclaimed, JobFits, AttemptFits;
    AttemptVerdictsExactly(survey, RowsOf(t0.intents, a));
    ReclaimedIsBytesGone(survey, t0.intents, a);
  }

  lemma OutcomeIsRight(survey: Survey, t0: Tables, a: nat, key: (nat, nat), outcome: OperationRow)
    requires survey.faults == map[] && a in RunningAttempts(t0) && OutcomeOf(survey, t0, a, key, outcome)
    ensures IsOutcomeOf(survey, t0, a, key, outcome)
  {
    hide RowsOf, LoadableTarget, RecordOf, OutcomeFits, StateFits;
    var r :| r in RowsOf(t0.intents, a) && key == (t0.attempts[a].jobId, r.op) && RecordedAs(survey, r, outcome);
    SettledExactly(survey, r);
  }

  lemma IntentIsRight(survey: Survey, row: Intent)
    requires survey.faults == map[] && LoadableTarget(row.target) && (row.attempt, row.op) !in survey.store.update
    ensures SettledRow(survey, row) == row.(state := SettledRow(survey, row).state)
    ensures StateFits(survey, Reload(row), SettledRow(survey, row).state)
  {
    hide Settled, StateFits, OutcomeFits;
    SettledExactly(survey, Reload(row));
  }

  /**
   A finished recovery without verification faults, row by row and in terms of the disk: the state of every
   running attempt and of its intents, the state and the credit of its job, and every new outcome.
   */
  lemma RecoveredByDisk(survey: Survey, t0: Tables, t: Tables)
    requires survey.faults == map[] && Recoverable(t0) && SettledSoFar(survey, t0, t, RunningAttempts(t0))
    ensures forall a :: a in RunningAttempts(t0) ==>
      a in t.attempts && AttemptFits(survey, RowsOf(t0.intents, a), t.attempts[a].state)
    ensures |t.intents| == |t0.intents| && forall i :: 0 <= i < |t0.intents| ==>
      var row := t0.intents[i];
      row.attempt in RunningAttempts(t0) && (row.attempt, row.op) !in survey.store.update ==>
        LoadableTarget(row.target) && StateFits(survey, Reload(row), t.intents[i].state)
    ensures forall a :: a in RunningAttempts(t0) && t0.attempts[a].jobId in t0.jobs ==>
      var j := t0.attempts[a].jobId;
      j in t.jobs && exists b :: JobRowFits(survey, t0, b, j, t.jobs[j])
    ensures forall key :: key in t.operations ==>
      || (key in t0.operations && t.operations[key] == t0.operations[key])
      || exists a :: IsOutcomeOf(survey, t0, a, key, t.operations[key])
    ensures forall a :: a in RunningAttempts(t0) ==> OutcomesStand(survey, t0, t, a)
  {
    hide OutcomesStand, RowsOf, LoadableTarget, AttemptFits, AttemptVerdict;
    hide JobRowFits, IsOutcomeOf, WritesJob, OutcomeOf, StateFits;
    hide OutcomesStoredFor, UniqueKeys, SettledRow, JobFits, JobVerdict;
    var all := RunningAttempts(t0);
    forall a | a in all ensures a in t.attempts && AttemptFits(survey, RowsOf(t0.intents, a), t.attempts[a].state) {
      AttemptVerdictsExactly(survey, RowsOf(t0.intents, a));
    }
    forall i | 0 <= i < |t0.intents| && t0.intents[i].attempt in all
      && (t0.intents[i].attempt, t0.intents[i].op) !in survey.store.update
      ensures LoadableTarget(t0.intents[i].target) && StateFits(survey, Reload(t0.intents[i]), t.intents[i].state)
    {
      IntentIsRight(survey, t0.intents[i]);
    }
    forall a | a in all && t0.attempts[a].jobId in t0.jobs
      ensures t0.attempts[a].jobId in t.jobs
      ensures exists b :: JobRowFits(survey, t0, b, t0.attempts[a].jobId, t.jobs[t0.attempts[a].jobId])
    {
      var j := t0.attempts[a].jobId;
      var b :| b in all && WritesJob(survey, t0, b, j, t.jobs[j]);
      JobRowIsRight(survey, t0, b, j, t.jobs[j]);
    }
    forall a | a in all ensures OutcomesStand(survey, t0, t, a) {
      OutcomesStandFor(survey, t0, t, a);
    }
    forall key | key in t.operations && !(key in t0.operations && t.operations[key] == t0.operations[key])
      ensures exists a :: IsOutcomeOf(survey, t0, a, key, t.operations[key])
    {
      var a :| a in all && OutcomeOf(survey, t0, a, key, t.operations[key]);
      OutcomeIsRight(survey, t0, a, key, t.operations[key]);
    }
  }
}
