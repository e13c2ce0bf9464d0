/**
 One concrete store, an attempt of one operation on a five-byte file: what recovery makes of it with the file
 gone, still there, replaced or out of reach, and the three losses that a second recovery does not make good.
 */
module LostUpdates {
  import opened Domain
  import opened Paths
  import opened Filesystem
  import opened Verification
  import opened Durability
  import opened Recovery
  import opened Reconciliation
  import opened Retry
  import opened JobCredit
  import opened DiskVerdicts

  /** The intent of attempt 1 of job 7 to delete "f". */
  function DeleteIntent(): Intent {
    Intent(7, 1, 1, "t", "f", FILE, 5, RemoveFile, Committed, 0, 0)
  }

  /** The store that a crash left after that deletion. */
  function Left(): Tables {
    Tables(map[7 := JobRow("ADMITTED", 0)], map[1 := AttemptRow(7, 0, RUNNING, 0)], [DeleteIntent()], map[], map[])
  }

  /** Recovery looks at this disk, and the store fails in these places. */
  function Look(tree: Tree, roots: Roots, store: StoreFaults): Survey {
    Survey(tree, roots, OneFileJob().catalog, map[], store)
  }

  /** The cache root is there and the file is not. */
  function Surveyed(store: StoreFaults): Survey {
    Look(map[], map[BASE := ROOT], store)
  }

  lemma IntentIsLoaded()
    ensures LoadableTarget("t") && Loadable(Left().intents, 1) && RowsOf(Left().intents, 1) == [DeleteIntent()]
    ensures Reload(DeleteIntent()) == DeleteIntent()
  {
    FileName();
    assert Left().intents[..0] == [];
  }

  lemma FileIsGone(store: StoreFaults)
    ensures Settled(Surveyed(store), DeleteIntent()) == VerifiedSuccess
  {
    hide VerifyPath;
    FileName();
    SettledMeaning(Surveyed(store), DeleteIntent());
  }

  /** With something under its name, whatever it is, the file counts as present. */
  lemma FileIsPresent(entry: Entry)
    ensures
      var survey := Look(map[Edge(ROOT, "f") := entry], map[BASE := ROOT], SOUND_STORE);
      Settled(survey, DeleteIntent()) == VerifiedFailed
  {
    hide VerifyPath, RowGone, OutcomeFits;
    var survey := Look(map[Edge(ROOT, "f") := entry], map[BASE := ROOT], SOUND_STORE);
    FileName();
    assert ["f"][..0] == [];
    SettledExactly(survey, DeleteIntent());
    assert RowPresent(survey, DeleteIntent());
  }

  lemma RootIsMissing()
    ensures Settled(Look(map[], map[], SOUND_STORE), DeleteIntent()) == ResolvedUnknown
  {
    hide VerifyPath, Components;
    SettledExactly(Look(map[], map[], SOUND_STORE), DeleteIntent());
  }

  /** What follows for the attempt from the state of its one intent. */
  lemma Verdicts(survey: Survey)
    ensures
      var rows := [DeleteIntent()];
      match Settled(survey, DeleteIntent())
      case VerifiedSuccess =>
        && AttemptVerdict(survey, rows) == "RECONCILED" && JobVerdict(survey, rows) == "RECOVERED"
        && Reclaimed(survey, rows) == 5
      case VerifiedFailed =>
        && AttemptVerdict(survey, rows) == "FAILED" && JobVerdict(survey, rows) == "FAILED"
        && Reclaimed(survey, rows) == 0
      case _ =>
        Settled(survey, DeleteIntent()) == ResolvedUnknown ==>
          && AttemptVerdict(survey, rows) == "UNRESOLVED" && JobVerdict(survey, rows) == "PARTIALLY_RECONCILED"
          && Reclaimed(survey, rows) == 0
  {
    hide Settled;
    assert [DeleteIntent()][..0] == [];
    assert DeleteIntent() in [DeleteIntent()];
  }

  /** Recovery of this store, statement by statement. */
  lemma Settling(survey: Survey)
    requires "t" in survey.catalog.targets
    ensures Loadable(Left().intents, 1)
    ensures
      var t, state := Left(), Settled(survey, DeleteIntent());
      var t1 := if (1, 1) in survey.store.update then t else t.(intents := [DeleteIntent().(state := state)]);
      SettleIntents(survey, t, 1)
        == if (1, 1) in survey.store.record then t1 else RecordResult(t1, 7, RecordOf(survey, DeleteIntent()))
  {
    hide Settled, RecordOf, RecordResult, LoadableTarget, Reload;
    IntentIsLoaded();
    var row, state := DeleteIntent(), Settled(survey, DeleteIntent());
    assert [row][..0] == [];
    assert SetIntentState(Left(), 1, 1, state) == Left().(intents := [row.(state := state)]);
    assert SettleRows(survey, Left(), 7, [row]) == SettleOne(survey, Left(), 7, row);
  }

  lemma OnlyOne(survey: Survey, t: Tables)
    requires 1 in t.attempts && Loadable(t.intents, 1)
    ensures SettleInOrder(survey, t, [1]) == SettleAttempt(survey, t, 1)
  {
    hide SettleAttempt, LoadableTarget;
    assert [1][..0] == [];
  }

  // ------------------------------------------------------------------ Without store errors

  /** The tables after a recovery of this store that gave its intent, its outcome, the attempt and the job these. */
  function After(state: IntentState, result: OpResult, attempt: string, job: JobRow): Tables {
    Tables(
      map[7 := job], map[1 := AttemptRow(7, 0, attempt, 0)], [DeleteIntent().(state := state)],
      map[(7, 1) := OperationRow("t", RemoveFile, "f", FILE, 5, result)], map[])
  }

  /** A recovery without store errors, from the state that it gives to the intent. */
  lemma SettledStore(survey: Survey)
    requires survey.store == SOUND_STORE && "t" in survey.catalog.targets
    ensures
      var row := DeleteIntent();
      SettleInOrder(survey, Left(), [1])
        == (After(
              Settled(survey, row), ResultOf(survey, row), AttemptVerdict(survey, [row]),
              JobRow(JobVerdict(survey, [row]), Reclaimed(survey, [row]))),
            true)
  {
    hide SettleIntents, LoadableTarget, RowsOf, AttemptVerdict, JobVerdict, Reclaimed, Settled, SettleInOrder, ResultOf;
    IntentIsLoaded();
    Settling(survey);
    OnlyOne(survey, Left());
    var row := DeleteIntent();
    assert ResultOf(survey, row).id == 1 by { RecordNamesItsOperation(survey, row); }
    var t := SettleAttempt(survey, Left(), 1).0;
    assert t.operations == map[(7, 1) := OperationRow("t", RemoveFile, "f", FILE, 5, ResultOf(survey, row))];
    assert t.attempts == map[1 := AttemptRow(7, 0, AttemptVerdict(survey, [row]), 0)];
    assert t.jobs == map[7 := JobRow(JobVerdict(survey, [row]), Reclaimed(survey, [row]))];
  }

  /** Undisturbed: the intent and its outcome are recorded as deleted and the job is credited. */
  lemma NothingIsLost()
    ensures SettleInOrder(Surveyed(SOUND_STORE), Left(), [1])
      == (After(VerifiedSuccess, OpResult(1, Success, 5), "RECONCILED", JobRow("RECOVERED", 5)), true)
  {
    hide AttemptVerdict, JobVerdict, Reclaimed, Settled, SettleInOrder;
    FileIsGone(SOUND_STORE);
    Verdicts(Surveyed(SOUND_STORE));
    SettledStore(Surveyed(SOUND_STORE));
  }

  /** The crash came before the file was removed: everything ends failed, and nothing is credited. */
  lemma FileStillThere()
    ensures SettleInOrder(
        Look(map[Edge(ROOT, "f") := Entry(FILE, RegularFile)], map[BASE := ROOT], SOUND_STORE), Left(), [1])
      == (After(VerifiedFailed, OpResult(1, Failed, 0), "FAILED", JobRow("FAILED", 0)), true)
  {
    hide AttemptVerdict, JobVerdict, Reclaimed, Settled, SettleInOrder;
    var survey := Look(map[Edge(ROOT, "f") := Entry(FILE, RegularFile)], map[BASE := ROOT], SOUND_STORE);
    FileIsPresent(Entry(FILE, RegularFile));
    Verdicts(survey);
    SettledStore(survey);
  }

  /** Another file has taken the name: the same. */
  lemma FileReplaced(other: Identity)
    requires other != FILE
    ensures SettleInOrder(
        Look(map[Edge(ROOT, "f") := Entry(other, RegularFile)], map[BASE := ROOT], SOUND_STORE), Left(), [1])
      == (After(VerifiedFailed, OpResult(1, Failed, 0), "FAILED", JobRow("FAILED", 0)), true)
  {
    hide AttemptVerdict, JobVerdict, Reclaimed, Settled, SettleInOrder;
    var survey := Look(map[Edge(ROOT, "f") := Entry(other, RegularFile)], map[BASE := ROOT], SOUND_STORE);
    FileIsPresent(Entry(other, RegularFile));
    Verdicts(survey);
    SettledStore(survey);
  }

  /** The cache root cannot be opened: nothing can be said about the file. */
  lemma RootOutOfReach()
    ensures SettleInOrder(Look(map[], map[], SOUND_STORE), Left(), [1])
      == (After(ResolvedUnknown, OpResult(1, Skipped, 0), "UNRESOLVED", JobRow("PARTIALLY_RECONCILED", 0)), true)
  {
    hide AttemptVerdict, JobVerdict, Reclaimed, Settled, SettleInOrder;
    var survey := Look(map[], map[], SOUND_STORE);
    RootIsMissing();
    Verdicts(survey);
    SettledStore(survey);
  }

  // ------------------------------------------------------------------ With a store error

  /**
   The job row cannot be written: recovery fails with the attempt closed, the next one finds nothing
   running, and the job never gets its credit.
   */
  lemma JobRowIsLost()
    ensures
      var survey := Surveyed(SOUND_STORE.(job := {1}));
      var (t, ok) := SettleInOrder(survey, Left(), [1]);
      && !ok && t.attempts == map[1 := AttemptRow(7, 0, "RECONCILED", 0)]
      && IsOrder([], RunningAttempts(t)) && SettleInOrder(Sound(survey), t, []) == (t, true)
      && t.jobs == map[7 := JobRow("ADMITTED", 0)]
  {
    hide SettleIntents, LoadableTarget, RowsOf, AttemptVerdict, JobVerdict, Reclaimed, Settled;
    var store := SOUND_STORE.(job := {1});
    IntentIsLoaded();
    FileIsGone(store);
    Settling(Surveyed(store));
    Verdicts(Surveyed(store));
    OnlyOne(Surveyed(store), Left());
  }

  /** The update of the intent fails: recovery goes through, and the intent stays committed for good. */
  lemma IntentIsLost()
    ensures
      var survey := Surveyed(SOUND_STORE.(update := {(1, 1)}));
      var (t, ok) := SettleInOrder(survey, Left(), [1]);
      && ok && t.attempts == map[1 := AttemptRow(7, 0, "RECONCILED", 0)]
      && IsOrder([], RunningAttempts(t)) && SettleInOrder(Sound(survey), t, []) == (t, true)
      && t.intents == [DeleteIntent()] && t.intents[0].state == Committed
  {
    hide SettleIntents, LoadableTarget, RowsOf, AttemptVerdict, JobVerdict, Reclaimed, Settled;
    var store := SOUND_STORE.(update := {(1, 1)});
    IntentIsLoaded();
    FileIsGone(store);
    Settling(Surveyed(store));
    Verdicts(Surveyed(store));
    OnlyOne(Surveyed(store), Left());
  }

  /** The outcome cannot be recorded: recovery goes through, and the outcome is missing for good. */
  lemma OutcomeIsLost()
    ensures
      var survey := Surveyed(SOUND_STORE.(record := {(1, 1)}));
      var (t, ok) := SettleInOrder(survey, Left(), [1]);
      && ok && t.attempts == map[1 := AttemptRow(7, 0, "RECONCILED", 0)]
      && IsOrder([], RunningAttempts(t)) && SettleInOrder(Sound(survey), t, []) == (t, true)
      && t.operations == map[]
  {
    hide SettleIntents, LoadableTarget, RowsOf, AttemptVerdict, JobVerdict, Reclaimed, Settled;
    var store := SOUND_STORE.(record := {(1, 1)});
    IntentIsLoaded();
    FileIsGone(store);
    Settling(Surveyed(store));
    Verdicts(Surveyed(store));
    OnlyOne(Surveyed(store), Left());
  }
}
