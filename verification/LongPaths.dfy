/** Paths that joining can build but parsing refuses: what storing and recovering them leads to. */
module LongPaths {
  import opened Domain
  import opened Paths
  import opened Verification
  import opened Durability
  import opened Recovery
  import opened Scanner
  import opened ScannedPaths

  /** The path that joining one name after the other gives. */
  function Joined(names: seq<Name>): string {
    if names == [] then "" else Push(Joined(names[..|names| - 1]), names[|names| - 1])
  }

  lemma {:induction false} JoinedIsText(names: seq<Name>)
    requires ParsedNames(names)
    ensures Joined(names) == Text(names)
  {
    hide IsRelPath;
    if names != [] {
      var n := |names| - 1;
      JoinedIsText(names[..n]);
      PushIsAppend(names[..n], names[n]);
      assert names == names[..n] + [names[n]];
    }
  }

  /** The longest name that a directory can hold. */
  const LONG_NAME: Name := seq(255, _ => 'a')

  function LongPath(k: nat): seq<Name> {
    seq(k, _ => LONG_NAME)
  }

  lemma {:induction false} AsciiLength(s: string)
    requires forall c :: c in s ==> c as int < 0x80
    ensures ByteLength(s) == |s|
  {
    if s != "" {
      assert s[0] in s && forall c :: c in s[1..] ==> c in s;
      AsciiLength(s[1..]);
    }
  }

  lemma LongNameParses()
    ensures ValidComponent(LONG_NAME) && IsRelPath(LONG_NAME)
  {
    hide ByteLength;
    assert LONG_NAME[0] == 'a' && |LONG_NAME| == 255;
    AsciiLength(LONG_NAME);
    SplitWithoutSlash(LONG_NAME);
    KeepAll([LONG_NAME]);
  }

  lemma {:induction false} LongPathLength(k: nat)
    requires k >= 1
    ensures ByteLength(Join(LongPath(k))) == 256 * k - 1
  {
    hide ByteLength;
    var names := LongPath(k);
    assert |LONG_NAME| == 255 && forall c :: c in LONG_NAME ==> c == 'a';
    if k > 1 {
      LongPathLength(k - 1);
      assert names[1..] == LongPath(k - 1);
      assert Join(names) == LONG_NAME + "/" + Join(names[1..]);
      AsciiLength(LONG_NAME + "/");
      ByteLengthConcat(LONG_NAME + "/", Join(names[1..]));
    } else {
      AsciiLength(LONG_NAME);
    }
  }

  /** An intent whose path does not parse reads back with the empty path, and recovery can only call it unknown. */
  lemma UnparsablePathIsUnknown(survey: Survey, row: Intent)
    requires LoadableTarget(row.target) && row.relPath != "" && !IsRelPath(row.relPath)
    ensures Reload(row).relPath == "" && Settled(survey, Reload(row)) == ResolvedUnknown
  {
    hide IsRelPath, LoadableTarget, VerifyFrom;
    assert Components("") == [] by { assert Split("") == [""]; }
  }

  /** So its attempt is never reconciled, whatever the disk looks like. */
  lemma UnparsablePathBlocksAttempt(survey: Survey, rows: seq<Intent>, attempt: nat, i: nat)
    requires Loadable(rows, attempt) && i < |rows| && rows[i].attempt == attempt
    requires rows[i].relPath != "" && !IsRelPath(rows[i].relPath)
    ensures AttemptVerdict(survey, RowsOf(rows, attempt)) == "UNRESOLVED"
  {
    hide IsRelPath, LoadableTarget, Reload, Settled, RowsOf;
    UnparsablePathIsUnknown(survey, rows[i]);
    RowsOfMembers(rows, attempt, Reload(rows[i]));
    assert !AllDeleted(survey, RowsOf(rows, attempt)) && SomeUnknown(survey, RowsOf(rows, attempt));
  }

  /** Such a path: seventeen of the longest names. Every single join succeeds, and the whole does not parse. */
  lemma SeventeenLongNames(row: Intent)
    requires LoadableTarget(row.target) && row.relPath == Joined(LongPath(17))
    ensures IsRelPath(LONG_NAME) && row.relPath != "" && !IsRelPath(row.relPath)
    ensures Reload(row) != row && Reload(row).relPath == ""
  {
    hide IsRelPath, LoadableTarget, ByteLength, Join, Reload;
    var names := LongPath(17);
    LongNameParses();
    assert ParsedNames(names);
    JoinedIsText(names);
    LongPathLength(17);
    JoinedPathShape(names);
    JoinedPathParsesExactly(names);
    UnparsablePathIsUnknown(AnySurvey(), row);
  }

  function AnySurvey(): Survey {
    Survey(map[], map[], Catalog(0, map[]), map[], SOUND_STORE)
  }
}
