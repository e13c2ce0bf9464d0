/** When a scan is complete: which directories it could not list, and what the limit of 50,000 entries does to it. */
module ScanCompleteness {
  import opened Domain
  import opened Paths
  import opened Scanner
  import opened ScanResults

  // ------------------------------------------------------------------ Directories that cannot be listed

  /** The directory at `at` below `folder`, behind real directories that can be opened and listed, cannot be listed. */
  ghost predicate Unlisted(folder: Folder, at: seq<Name>)
    decreases |at|
  {
    if at == [] then !folder.readable
    else folder.readable && exists i :: 0 <= i < |folder.entries| && UnlistedVia(folder.entries[i], at)
  }

  ghost predicate UnlistedVia(e: DirEntry, at: seq<Name>)
    requires at != []
    decreases |at|, 0
  {
    && IsRelPath(e.name) && e.name == at[0] && e.isDir && !e.isSymlink && e.openable
    && Unlisted(e.sub, at[1..])
  }

  ghost predicate Missed(folder: Folder, path: seq<Name>, depth: nat, free: nat, at: seq<Name>) {
    path <= at && |at| - |path| + depth < MAX_DEPTH && |at| - |path| <= free && Unlisted(folder, at[|path|..])
  }

  ghost predicate MissedVia(e: DirEntry, path: seq<Name>, depth: nat, free: nat, at: seq<Name>) {
    path < at && |at| - |path| + depth < MAX_DEPTH && |at| - |path| <= free && UnlistedVia(e, at[|path|..])
  }

  lemma {:induction false} TraceFindsUnlisted(folder: Folder, path: seq<Name>, depth: nat, free: nat, at: seq<Name>)
    requires depth <= MAX_DEPTH
    ensures Unreadable(at) in TraceFolder(folder, path, depth, free) <==> Missed(folder, path, depth, free, at)
    decreases MAX_DEPTH - depth, 2, 0
  {
    hide IsRelPath, TraceEntries;
    if depth < MAX_DEPTH {
      EntriesFindUnlisted(folder.entries, path, depth, free, at);
      if path <= at && |at| == |path| {
        assert at == path && at[|path|..] == [];
      }
    }
  }

  lemma {:induction false} EntriesFindUnlisted(
    entries: seq<DirEntry>, path: seq<Name>, depth: nat, free: nat, at: seq<Name>)
    requires depth < MAX_DEPTH
    ensures Unreadable(at) in TraceEntries(entries, path, depth, free)
      <==> exists i :: 0 <= i < |entries| && MissedVia(entries[i], path, depth, free, at)
    decreases MAX_DEPTH - depth, 1, |entries|
  {
    hide MissedVia, TraceEntry;
    if entries != [] {
      EntryFindsUnlisted(entries[0], path, depth, free, at);
      EntriesFindUnlisted(entries[1..], path, depth, free, at);
      if i :| 0 <= i < |entries[1..]| && MissedVia(entries[1..][i], path, depth, free, at) {
        assert MissedVia(entries[i + 1], path, depth, free, at);
      }
      if i :| 0 < i < |entries| && MissedVia(entries[i], path, depth, free, at) {
        assert entries[1..][i - 1] == entries[i];
      }
    }
  }

  lemma {:induction false} EntryFindsUnlisted(e: DirEntry, path: seq<Name>, depth: nat, free: nat, at: seq<Name>)
    requires depth < MAX_DEPTH
    ensures Unreadable(at) in TraceEntry(e, path, depth, free) <==> MissedVia(e, path, depth, free, at)
    decreases MAX_DEPTH - depth, 0, 0
  {
    hide IsRelPath, Unlisted, TraceFolder;
    var below := path + [e.name];
    if IsRealDir(e) && e.openable && free > 0 {
      TraceFindsUnlisted(e.sub, below, depth + 1, free - 1, at);
    }
    if below <= at {
      assert at[|path|..][0] == e.name && at[|path|..][1..] == at[|below|..];
    } else if path < at && at[|path|..][0] == e.name {
      assert at == path + at[|path|..];
    }
  }

  /** A directory that the walk gets to, at most 15 levels down and with a permit for each, cannot be listed. */
  ghost predicate UnlistedInReach(folder: Folder, free: nat, at: seq<Name>) {
    |at| < MAX_DEPTH && |at| <= BelowRoot(free) && Unlisted(folder, at)
  }

  // ------------------------------------------------------------------ The limit

  lemma {:induction false} UndisturbedBelowLimit(count: nat, trace: seq<Event>)
    requires count + |Items(trace)| < MAX_CANDIDATES
    ensures Undisturbed(count, trace) <==> forall i :: 0 <= i < |trace| ==> !trace[i].Unreadable?
    decreases |trace|
  {
    if trace != [] {
      UndisturbedBelowLimit(if trace[0].Found? then count + 1 else count, trace[1..]);
      assert trace == [trace[0]] + trace[1..];
    }
  }

  lemma {:induction false} UndisturbedMeansFew(count: nat, trace: seq<Event>)
    requires count <= MAX_CANDIDATES && Undisturbed(count, trace)
    requires forall i :: 0 < i < |trace| && !trace[i].Check? ==> trace[i - 1] == Check
    requires trace != [] && trace[0].Found? ==> count < MAX_CANDIDATES
    ensures count + |Items(trace)| <= MAX_CANDIDATES
    decreases |trace|
  {
    if trace != [] {
      assert forall i :: 0 < i < |trace[1..]| ==> trace[1..][i - 1] == trace[i] && trace[1..][i] == trace[i + 1];
      UndisturbedMeansFew(if trace[0].Found? then count + 1 else count, trace[1..]);
    }
  }

  /**
   With fewer than 50,000 entries a scan is undisturbed, and so its result complete, exactly if every directory
   in reach could be listed; with more it never is.
   */
  lemma CompleteExactly(folder: Folder, free: nat)
    ensures
      var trace := RootTrace(folder, free);
      && (|Items(trace)| < 50_000 ==>
        (Undisturbed(0, trace) <==> forall at :: !UnlistedInReach(folder, free, at)))
      && (|Items(trace)| > 50_000 ==> !Undisturbed(0, trace))
  {
    hide TraceFolder, Unlisted, Items;
    var trace := RootTrace(folder, free);
    TraceIsChecked(folder, [], 0, BelowRoot(free));
    if |Items(trace)| < MAX_CANDIDATES {
      UndisturbedBelowLimit(0, trace);
    }
    if Undisturbed(0, trace) {
      UndisturbedMeansFew(0, trace);
    }
    forall at ensures Unreadable(at) in trace <==> UnlistedInReach(folder, free, at) {
      TraceFindsUnlisted(folder, [], 0, BelowRoot(free), at);
      assert at[0..] == at;
    }
    forall i | 0 <= i < |trace| && trace[i].Unreadable? ensures UnlistedInReach(folder, free, trace[i].path) {
      assert Unreadable(trace[i].path) in trace;
    }
  }
}
