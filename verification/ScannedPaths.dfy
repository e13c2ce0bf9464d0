/** Which entries a scan finds, that it finds each once, and that their paths survive being stored. */
module ScannedPaths {
  import opened Domain
  import opened Paths
  import opened Durability
  import opened Resources
  import opened Scanner
  import opened ScanResults

  // ------------------------------------------------------------------ Exactly the reachable entries

  /** The entry at the relative path `rel` below the folder, seen through directories that can be entered. */
  ghost predicate OnDisk(folder: Folder, path: seq<Name>, rel: seq<Name>, item: Item)
    decreases |rel|
  {
    && rel != [] && folder.readable
    && exists i :: 0 <= i < |folder.entries| && Leads(folder.entries[i], path, rel, item)
  }

  /** The item is what the listing says about the entry: a real directory counts as empty, a symlink never as one. */
  ghost predicate Describes(item: Item, e: DirEntry, path: seq<Name>) {
    && item.path == path + [e.name] && item.identity == e.identity
    && item.isDir == (e.isDir && !e.isSymlink) && item.isSymlink == e.isSymlink
    && item.size == if item.isDir then 0 else e.size
  }

  ghost predicate Leads(e: DirEntry, path: seq<Name>, rel: seq<Name>, item: Item)
    requires rel != []
    decreases |rel|, 0
  {
    && IsRelPath(e.name) && e.name == rel[0]
    && if |rel| == 1 then Describes(item, e, path)
      else e.isDir && !e.isSymlink && e.openable && OnDisk(e.sub, path + [e.name], rel[1..], item)
  }

  /** The rest of the item's path below `path`. */
  ghost function Rest(path: seq<Name>, item: Item): seq<Name> {
    if |path| <= |item.path| then item.path[|path|..] else []
  }

  /** Deep enough permits and levels for a path of that length. */
  predicate InRange(rel: seq<Name>, depth: nat, free: nat) {
    |rel| + depth <= MAX_DEPTH && |rel| <= free + 1
  }

  ghost predicate Visible(folder: Folder, path: seq<Name>, depth: nat, free: nat, item: Item) {
    path < item.path && InRange(Rest(path, item), depth, free) && OnDisk(folder, path, Rest(path, item), item)
  }

  ghost predicate VisibleVia(e: DirEntry, path: seq<Name>, depth: nat, free: nat, item: Item) {
    path < item.path && InRange(Rest(path, item), depth, free) && Leads(e, path, Rest(path, item), item)
  }

  lemma {:induction false} TraceFindsVisible(folder: Folder, path: seq<Name>, depth: nat, free: nat, item: Item)
    requires depth <= MAX_DEPTH
    ensures Found(item) in TraceFolder(folder, path, depth, free) <==> Visible(folder, path, depth, free, item)
    decreases MAX_DEPTH - depth, 2, 0
  {
    hide IsRelPath;
    if depth < MAX_DEPTH && folder.readable {
      EntriesFindVisible(folder.entries, path, depth, free, item);
    }
  }

  lemma {:induction false} EntriesFindVisible(
    entries: seq<DirEntry>, path: seq<Name>, depth: nat, free: nat, item: Item)
    requires depth < MAX_DEPTH
    ensures Found(item) in TraceEntries(entries, path, depth, free)
      <==> exists i :: 0 <= i < |entries| && VisibleVia(entries[i], path, depth, free, item)
    decreases MAX_DEPTH - depth, 1, |entries|
  {
    hide VisibleVia, TraceEntry;
    if entries != [] {
      EntryFindsVisible(entries[0], path, depth, free, item);
      EntriesFindVisible(entries[1..], path, depth, free, item);
      if i :| 0 <= i < |entries[1..]| && VisibleVia(entries[1..][i], path, depth, free, item) {
        assert VisibleVia(entries[i + 1], path, depth, free, item);
      }
      if i :| 0 < i < |entries| && VisibleVia(entries[i], path, depth, free, item) {
        assert entries[1..][i - 1] == entries[i];
      }
    }
  }

  lemma {:induction false} EntryFindsVisible(e: DirEntry, path: seq<Name>, depth: nat, free: nat, item: Item)
    requires depth < MAX_DEPTH
    ensures Found(item) in TraceEntry(e, path, depth, free) <==> VisibleVia(e, path, depth, free, item)
    decreases MAX_DEPTH - depth, 0, 0
  {
    hide IsRelPath, OnDisk, TraceFolder;
    var below := path + [e.name];
    DescribesOne(item, e, path);
    if item == ItemOf(e, path) {
      assert Rest(path, item) == [e.name];
    }
    if IsRealDir(e) && e.openable && free > 0 {
      TraceFindsVisible(e.sub, below, depth + 1, free - 1, item);
    }
    if below < item.path {
      assert Rest(path, item)[0] == e.name && Rest(path, item)[1..] == Rest(below, item);
    } else if path < item.path && Rest(path, item)[0] == e.name {
      assert item.path == path + Rest(path, item);
    }
  }

  lemma DescribesOne(item: Item, e: DirEntry, path: seq<Name>)
    ensures Describes(item, e, path) <==> item == ItemOf(e, path)
  {
  }

  lemma {:induction false} ItemsAreFound(trace: seq<Event>, item: Item)
    ensures item in Items(trace) <==> Found(item) in trace
  {
    if trace != [] {
      ItemsAreFound(trace[1..], item);
      assert trace == [trace[0]] + trace[1..];
    }
  }

  /**
   A scan finds exactly the entries that can be reached through readable, openable real directories
   and whose path has at most 16 components, the last 15 of which each need a permit.
   */
  lemma ScanFindsExactlyTheReachable(folder: Folder, free: nat, item: Item)
    ensures item in Items(RootTrace(folder, free)) <==>
      |item.path| <= MAX_DEPTH && |item.path| <= BelowRoot(free) + 1 && OnDisk(folder, [], item.path, item)
  {
    hide OnDisk, TraceFolder;
    ItemsAreFound(RootTrace(folder, free), item);
    TraceFindsVisible(folder, [], 0, BelowRoot(free), item);
    assert Rest([], item) == item.path;
    EmptyIsNothing(folder, item);
  }

  lemma EmptyIsNothing(folder: Folder, item: Item)
    ensures OnDisk(folder, [], item.path, item) ==> item.path != []
  {
  }

  // ------------------------------------------------------------------ Candidates and the entries behind them

  /** Entry `e` is listed at the relative path, below readable directories that are real and can be opened. */
  ghost predicate Reached(folder: Folder, rel: seq<Name>, e: DirEntry)
    decreases |rel|
  {
    && rel != [] && folder.readable
    && exists i :: 0 <= i < |folder.entries| && ReachedVia(folder.entries[i], rel, e)
  }

  ghost predicate ReachedVia(first: DirEntry, rel: seq<Name>, e: DirEntry)
    requires rel != []
    decreases |rel|, 0
  {
    && IsRelPath(first.name) && first.name == rel[0]
    && if |rel| == 1 then e == first
      else first.isDir && !first.isSymlink && first.openable && Reached(first.sub, rel[1..], e)
  }

  ghost predicate ReachedAs(folder: Folder, path: seq<Name>, rel: seq<Name>, e: DirEntry, item: Item) {
    rel != [] && Reached(folder, rel, e) && Describes(item, e, path + rel[..|rel| - 1])
  }

  lemma {:induction false} OnDiskIsReached(folder: Folder, path: seq<Name>, rel: seq<Name>, item: Item)
    ensures OnDisk(folder, path, rel, item) <==> exists e :: ReachedAs(folder, path, rel, e, item)
    decreases |rel|
  {
    hide IsRelPath, Describes;
    if rel != [] && folder.readable {
      if i :| 0 <= i < |folder.entries| && Leads(folder.entries[i], path, rel, item) {
        var e := LeadsToEntry(folder.entries[i], path, rel, item);
        assert ReachedAs(folder, path, rel, e, item);
      }
      if e :| ReachedAs(folder, path, rel, e, item) {
        var i :| 0 <= i < |folder.entries| && ReachedVia(folder.entries[i], rel, e);
        EntryLeads(folder.entries[i], path, rel, e, item);
      }
    }
  }

  lemma {:induction false} LeadsToEntry(first: DirEntry, path: seq<Name>, rel: seq<Name>, item: Item)
    returns (e: DirEntry)
    requires rel != [] && Leads(first, path, rel, item)
    ensures ReachedVia(first, rel, e) && Describes(item, e, path + rel[..|rel| - 1])
    decreases |rel|, 0
  {
    hide IsRelPath, Describes;
    if |rel| == 1 {
      e := first;
      assert path + rel[..0] == path;
    } else {
      var below, rest := path + [first.name], rel[1..];
      OnDiskIsReached(first.sub, below, rest, item);
      e :| ReachedAs(first.sub, below, rest, e, item);
      assert below + rest[..|rest| - 1] == path + rel[..|rel| - 1];
    }
  }

  lemma {:induction false} EntryLeads(first: DirEntry, path: seq<Name>, rel: seq<Name>, e: DirEntry, item: Item)
    requires rel != [] && ReachedVia(first, rel, e) && Describes(item, e, path + rel[..|rel| - 1])
    ensures Leads(first, path, rel, item)
    decreases |rel|, 0
  {
    hide IsRelPath, Describes;
    if |rel| == 1 {
      assert path + rel[..0] == path;
    } else {
      var below, rest := path + [first.name], rel[1..];
      assert below + rest[..|rest| - 1] == path + rel[..|rel| - 1];
      assert ReachedAs(first.sub, below, rest, e, item);
      OnDiskIsReached(first.sub, below, rest, item);
    }
  }

  /** The candidate reports the entry at this path of the target, field by field. */
  ghost predicate Reports(c: Candidate, target: TargetId, rel: seq<Name>, e: DirEntry) {
    && rel != [] && c.target == target && c.relPath == Join(rel) && c.identity == e.identity
    && c.isDir == (e.isDir && !e.isSymlink) && c.isSymlink == e.isSymlink
    && c.size == if c.isDir then 0 else e.size
  }

  /** Within the depth of the walk and the permits that it can hold. */
  predicate WithinReach(rel: seq<Name>, free: nat) {
    |rel| <= 16 && |rel| <= BelowRoot(free) + 1
  }

  ghost predicate ReportsReached(
    c: Candidate, folder: Folder, free: nat, target: TargetId, rel: seq<Name>, e: DirEntry)
  {
    WithinReach(rel, free) && Reached(folder, rel, e) && Reports(c, target, rel, e)
  }

  /** Every candidate reports an entry in reach, under the next identifier. */
  lemma CandidateIsAnEntry(folder: Folder, free: nat, target: TargetId, from: nat, k: nat)
    requires k < |Items(RootTrace(folder, free))|
    ensures
      var c := Numbered(target, from, Items(RootTrace(folder, free)))[k];
      c.id == from + k && exists rel, e :: ReportsReached(c, folder, free, target, rel, e)
  {
    hide TraceFolder, Reached, OnDisk, Join;
    var item := Items(RootTrace(folder, free))[k];
    var c := Numbered(target, from, Items(RootTrace(folder, free)))[k];
    ScanFindsExactlyTheReachable(folder, free, item);
    OnDiskIsReached(folder, [], item.path, item);
    var e :| ReachedAs(folder, [], item.path, e, item);
    assert ReportsReached(c, folder, free, target, item.path, e);
  }

  /** Every entry in reach is reported by a candidate. */
  lemma EntryIsACandidate(folder: Folder, free: nat, target: TargetId, from: nat, rel: seq<Name>, e: DirEntry)
    requires WithinReach(rel, free) && Reached(folder, rel, e)
    ensures exists c :: c in Numbered(target, from, Items(RootTrace(folder, free))) && Reports(c, target, rel, e)
  {
    hide TraceFolder, Reached, OnDisk, Join;
    var isDir := e.isDir && !e.isSymlink;
    var item := Item(rel, e.identity, if isDir then 0 else e.size, isDir, e.isSymlink);
    NonemptyPath(folder, rel, e);
    assert [] + rel[..|rel| - 1] == rel[..|rel| - 1];
    assert ReachedAs(folder, [], rel, e, item);
    OnDiskIsReached(folder, [], rel, item);
    ScanFindsExactlyTheReachable(folder, free, item);
    var items := Items(RootTrace(folder, free));
    var k :| 0 <= k < |items| && items[k] == item;
    assert Reports(Numbered(target, from, items)[k], target, rel, e);
  }

  lemma {:induction false} NonemptyPath(folder: Folder, rel: seq<Name>, e: DirEntry)
    requires Reached(folder, rel, e)
    ensures rel != [] && rel == rel[..|rel| - 1] + [e.name]
    decreases |rel|
  {
    hide IsRelPath;
    var i :| 0 <= i < |folder.entries| && ReachedVia(folder.entries[i], rel, e);
    if |rel| > 1 {
      NonemptyPath(folder.entries[i].sub, rel[1..], e);
      assert rel[1..][..|rel| - 2] == rel[..|rel| - 1][1..];
    }
  }

  // ------------------------------------------------------------------ Each once, parents first

  ghost predicate DistinctNames(entries: seq<DirEntry>) {
    forall i, j :: 0 <= i < j < |entries| ==> entries[i].name != entries[j].name
  }

  /** No directory lists a name twice. */
  ghost predicate NamesUnique(folder: Folder) {
    DistinctNames(folder.entries) && forall i :: 0 <= i < |folder.entries| ==> NamesUnique(folder.entries[i].sub)
  }

  /** No path comes again, and none comes after something below it. */
  ghost predicate DistinctPaths(trace: seq<Event>) {
    forall i, j :: 0 <= i < j < |trace| && trace[i].Found? && trace[j].Found? ==>
      !(trace[j].item.path <= trace[i].item.path)
  }

  /** Everything found lies under `path` followed by one of the names. */
  ghost predicate Under(trace: seq<Event>, path: seq<Name>, names: set<Name>) {
    forall event :: event in trace && event.Found? ==> path < event.item.path && event.item.path[|path|] in names
  }

  function NameSet(entries: seq<DirEntry>): set<Name> {
    set e | e in entries :: e.name
  }

  lemma DistinctConcat(a: seq<Event>, b: seq<Event>, path: seq<Name>, xs: set<Name>, ys: set<Name>)
    requires DistinctPaths(a) && DistinctPaths(b) && Under(a, path, xs) && Under(b, path, ys) && xs !! ys
    ensures DistinctPaths(a + b) && Under(a + b, path, xs + ys)
  {
    var ab := a + b;
    forall i, j | 0 <= i < j < |ab| && ab[i].Found? && ab[j].Found? ensures !(ab[j].item.path <= ab[i].item.path) {
      if i < |a| <= j {
        assert ab[i] in a && ab[j] in b;
      }
    }
  }

  lemma {:induction false} FolderIsDistinct(folder: Folder, path: seq<Name>, depth: nat, free: nat)
    requires depth <= MAX_DEPTH && NamesUnique(folder)
    ensures DistinctPaths(TraceFolder(folder, path, depth, free))
    ensures Under(TraceFolder(folder, path, depth, free), path, NameSet(folder.entries))
    decreases MAX_DEPTH - depth, 2, 0
  {
    hide TraceEntries;
    if depth < MAX_DEPTH {
      EntriesAreDistinct(folder.entries, path, depth, free);
    }
  }

  lemma {:induction false} EntriesAreDistinct(entries: seq<DirEntry>, path: seq<Name>, depth: nat, free: nat)
    requires depth < MAX_DEPTH && DistinctNames(entries)
    requires forall i :: 0 <= i < |entries| ==> NamesUnique(entries[i].sub)
    ensures DistinctPaths(TraceEntries(entries, path, depth, free))
    ensures Under(TraceEntries(entries, path, depth, free), path, NameSet(entries))
    decreases MAX_DEPTH - depth, 1, |entries|
  {
    hide TraceEntry, DistinctPaths, Under;
    if entries == [] {
      NothingIsDistinct(path);
      assert TraceEntries(entries, path, depth, free) == [];
    } else {
      var first, rest := TraceEntry(entries[0], path, depth, free), TraceEntries(entries[1..], path, depth, free);
      EntryIsDistinct(entries[0], path, depth, free);
      EntriesAreDistinct(entries[1..], path, depth, free);
      assert {entries[0].name} !! NameSet(entries[1..]);
      assert entries == [entries[0]] + entries[1..];
      assert {entries[0].name} + NameSet(entries[1..]) == NameSet(entries);
      DistinctConcat(first, rest, path, {entries[0].name}, NameSet(entries[1..]));
    }
  }

  lemma NothingIsDistinct(path: seq<Name>)
    ensures DistinctPaths([]) && Under([], path, NameSet([]))
  {
  }

  lemma {:induction false} EntryIsDistinct(e: DirEntry, path: seq<Name>, depth: nat, free: nat)
    requires depth < MAX_DEPTH && NamesUnique(e.sub)
    ensures DistinctPaths(TraceEntry(e, path, depth, free))
    ensures Under(TraceEntry(e, path, depth, free), path, {e.name})
    decreases MAX_DEPTH - depth, 0, 0
  {
    hide IsRelPath, TraceFolder;
    var below := path + [e.name];
    if IsRealDir(e) && free > 0 && e.openable && IsRelPath(e.name) {
      FolderIsDistinct(e.sub, below, depth + 1, free - 1);
      var sub := TraceFolder(e.sub, below, depth + 1, free - 1);
      forall event | event in sub && event.Found?
        ensures path < event.item.path && event.item.path[|path|] == e.name && |event.item.path| > |below|
      {
        assert below < event.item.path;
        assert event.item.path[..|below|] == below;
      }
      var trace := TraceEntry(e, path, depth, free);
      assert trace == [Check, Found(ItemOf(e, path))] + sub;
      forall i, j | 0 <= i < j < |trace| && trace[i].Found? && trace[j].Found?
        ensures !(trace[j].item.path <= trace[i].item.path)
      {
        if i >= 2 {
          assert trace[i] == sub[i - 2] && trace[j] == sub[j - 2];
        } else {
          assert trace[j] == sub[j - 2] && sub[j - 2] in sub;
        }
      }
    }
  }

  // ------------------------------------------------------------------ Paths that parse back

  ghost predicate ParsedNames(path: seq<Name>) {
    forall p :: p in path ==> ValidComponent(p) && IsRelPath(p)
  }

  lemma {:induction false} FoundAreParsed(folder: Folder, path: seq<Name>, rel: seq<Name>, item: Item)
    requires Listed(folder) && ParsedNames(path) && OnDisk(folder, path, rel, item)
    ensures ParsedNames(item.path) && item.path == path + rel
    decreases |rel|
  {
    hide IsRelPath;
    var i :| 0 <= i < |folder.entries| && Leads(folder.entries[i], path, rel, item);
    var e := folder.entries[i];
    if |rel| == 1 {
      assert rel == [e.name];
    } else {
      FoundAreParsed(e.sub, path + [e.name], rel[1..], item);
      assert path + [e.name] + rel[1..] == path + rel;
    }
  }

  lemma SingleName(name: Name)
    requires ValidComponent(name) && IsRelPath(name)
    ensures Components(name) == [name] && ByteLength(name) <= MAX_COMPONENT_BYTES
  {
    SplitWithoutSlash(name);
    KeepAll([name]);
    assert name in Components(name);
  }

  lemma {:induction false} ByteLengthConcat(a: string, b: string)
    ensures ByteLength(a + b) == ByteLength(a) + ByteLength(b)
  {
    if a == "" {
      assert a + b == b;
    } else {
      assert (a + b)[1..] == a[1..] + b;
      ByteLengthConcat(a[1..], b);
    }
  }

  lemma {:induction false} JoinedLength(path: seq<Name>)
    requires path != [] && ParsedNames(path)
    ensures ByteLength(Join(path)) <= |path| * (MAX_COMPONENT_BYTES + 1) - 1
    ensures forall c :: c in Join(path) ==> !IsControl(c)
    ensures path[0] != "" && Join(path) != "" && Join(path)[0] == path[0][0]
  {
    hide ByteLength;
    assert path[0] in path;
    SingleName(path[0]);
    assert forall c :: c in path[0] ==> !IsControl(c);
    if |path| > 1 {
      assert ParsedNames(path[1..]);
      JoinedLength(path[1..]);
      ByteLengthConcat(path[0], "/");
      ByteLengthConcat(path[0] + "/", Join(path[1..]));
      assert ByteLength("/") == 1 by { ShortLength("/"); }
    }
  }

  /** The string of a list of parsed names is canonical and has just these components. */
  lemma JoinedPathShape(path: seq<Name>)
    requires path != [] && ParsedNames(path)
    ensures Canonical(Text(path)) && Split(Text(path)) == path && Components(Text(path)) == path
    ensures forall p :: p in path ==> p != "." && p != ".." && ByteLength(p) <= MAX_COMPONENT_BYTES
    ensures Text(path) != "" && Text(path)[0] != '/' && forall c :: c in Text(path) ==> !IsControl(c)
  {
    hide ByteLength, Join, Keep, Split;
    JoinedLength(path);
    forall p | p in path ensures '/' !in p && !Ignorable(p) && ByteLength(p) <= MAX_COMPONENT_BYTES && p != ".." {
      SingleName(p);
    }
    SplitJoin(path);
    KeepAll(path);
    assert path[0] in path && path[0][0] in path[0];
  }

  /** Joined names parse back exactly when the whole is within 4096 bytes and 255 components. */
  lemma JoinedPathParsesExactly(path: seq<Name>)
    requires path != [] && ParsedNames(path)
    ensures IsRelPath(Text(path)) <==> ByteLength(Text(path)) <= 4096 && |path| <= 255
  {
    hide ByteLength, Join, Keep, Split, Text, Components;
    JoinedPathShape(path);
    assert path[0] in path;
  }

  /** A path of at most 16 parsed names is itself a parsed path: canonical and within every bound. */
  lemma JoinedPathParses(path: seq<Name>)
    requires path != [] && ParsedNames(path) && |path| <= MAX_DEPTH
    ensures IsRelPath(Text(path)) && Canonical(Text(path)) && Components(Text(path)) == path
    ensures ByteLength(Text(path)) <= 4095
  {
    hide ByteLength, IsRelPath, Canonical, Components;
    JoinedPathShape(path);
    JoinedLength(path);
    JoinedPathParsesExactly(path);
  }

  /**
   Every scanned path has at most 16 components and 4095 bytes, is canonical and parses back to
   itself, and an intent stored for it reloads unchanged.
   */
  lemma ScannedPathsSurviveStorage(folder: Folder, free: nat, item: Item, row: Intent)
    requires Listed(folder) && item in Items(RootTrace(folder, free))
    requires LoadableTarget(row.target) && row.relPath == Text(item.path)
    ensures IsRelPath(row.relPath) && Canonical(row.relPath) && Components(row.relPath) == item.path
    ensures |item.path| <= MAX_DEPTH && ByteLength(row.relPath) <= 4095
    ensures Reload(row) == row
  {
    hide IsRelPath, Canonical, Components, ByteLength, Reload, LoadableTarget;
    ScanFindsExactlyTheReachable(folder, free, item);
    FoundAreParsed(folder, [], item.path, item);
    JoinedPathParses(item.path);
    ReloadIsIdentity(row);
  }

  /** No two candidates of a scan have the same path, and a directory comes before what is in it. */
  lemma ScannedPathsAreDistinct(folder: Folder, free: nat, target: TargetId, from: nat)
    requires Listed(folder) && NamesUnique(folder)
    ensures
      var all := Numbered(target, from, Items(RootTrace(folder, free)));
      forall i, j :: 0 <= i < j < |all| ==>
        && all[i].relPath != all[j].relPath && all[i].id < all[j].id
        && !(Components(all[j].relPath) <= Components(all[i].relPath))
  {
    hide Text, TraceFolder;
    var trace := RootTrace(folder, free);
    var items := Items(trace);
    FolderIsDistinct(folder, [], 0, BelowRoot(free));
    ItemsAreDistinct(trace);
    forall i, j | 0 <= i < j < |items|
      ensures Text(items[i].path) != Text(items[j].path)
      ensures !(Components(Text(items[j].path)) <= Components(Text(items[i].path)))
    {
      TextIsInjective(folder, free, items[i], items[j]);
    }
  }

  lemma TextIsInjective(folder: Folder, free: nat, a: Item, b: Item)
    requires Listed(folder) && a in Items(RootTrace(folder, free)) && b in Items(RootTrace(folder, free))
    ensures Text(a.path) == Text(b.path) ==> a.path == b.path
    ensures Components(Text(a.path)) == a.path && Components(Text(b.path)) == b.path
  {
    hide IsRelPath, Canonical, Components, Text;
    ScanFindsExactlyTheReachable(folder, free, a);
    ScanFindsExactlyTheReachable(folder, free, b);
    FoundAreParsed(folder, [], a.path, a);
    FoundAreParsed(folder, [], b.path, b);
    JoinedPathParses(a.path);
    JoinedPathParses(b.path);
  }

  lemma {:induction false} ItemsAreDistinct(trace: seq<Event>)
    requires DistinctPaths(trace)
    ensures forall i, j :: 0 <= i < j < |Items(trace)| ==> !(Items(trace)[j].path <= Items(trace)[i].path)
  {
    if trace != [] {
      var rest := trace[1..];
      assert forall i :: 0 <= i < |rest| ==> rest[i] == trace[i + 1];
      ItemsAreDistinct(rest);
      if trace[0].Found? {
        forall item | item in Items(rest) ensures !(item.path <= trace[0].item.path) {
          ItemsAreFound(rest, item);
          var k :| 0 <= k < |rest| && rest[k] == Found(item);
          assert trace[k + 1] == Found(item);
        }
      }
    }
  }
}
