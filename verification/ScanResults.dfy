/**
 What the two scans deliver: exactly the reachable entries in preorder, each once, under a path that
 parses back; the chunks are the collected list cut into pieces.
 */
module ScanResults {
  import opened Domain
  import opened Paths
  import opened Resources
  import opened Scanner

  // ------------------------------------------------------------------ Numbered lists and chunks

  /** The items as candidates with consecutive identifiers. */
  function Numbered(target: TargetId, from: nat, items: seq<Item>): seq<Candidate> {
    seq(|items|, i requires 0 <= i < |items| => CandidateOf(target, from + i, items[i]))
  }

  function Flatten<T>(chunks: seq<seq<T>>): seq<T> {
    if chunks == [] then [] else Flatten(chunks[..|chunks| - 1]) + chunks[|chunks| - 1]
  }

  function Least(a: nat, b: nat): nat {
    if a <= b then a else b
  }

  // ------------------------------------------------------------------ The collected list

  /** The items that still fit. */
  function Fitting(count: nat, items: seq<Item>): seq<Item> {
    if count >= MAX_CANDIDATES then [] else items[..Least(MAX_CANDIDATES - count, |items|)]
  }

  lemma FittingStep(count: nat, item: Item, items: seq<Item>)
    requires count < MAX_CANDIDATES
    ensures Fitting(count, [item] + items) == [item] + Fitting(count + 1, items)
  {
  }

  /** What the fold has added, in terms of the items alone. */
  ghost predicate Added(target: TargetId, c: Collected, c': Collected, taken: seq<Item>) {
    c'.candidates == c.candidates + Numbered(target, c.next, taken) && c'.next == c.next + |taken|
  }

  lemma AddedFirst(target: TargetId, c: Collected, item: Item, c': Collected, taken: seq<Item>)
    requires !Full(c) && Added(target, Observe(target, c, Found(item)), c', taken)
    ensures Added(target, c, c', [item] + taken)
  {
    hide CandidateOf, Numbered;
    NumberedStart(target, c.next, item, taken);
    var first, rest := [CandidateOf(target, c.next, item)], Numbered(target, c.next + 1, taken);
    assert (c.candidates + first) + rest == c.candidates + (first + rest);
  }

  lemma {:induction false} CollectedItems(target: TargetId, c: Collected, trace: seq<Event>)
    requires |c.candidates| <= MAX_CANDIDATES
    ensures Added(target, c, Collect(target, c, trace), Fitting(|c.candidates|, Items(trace)))
    decreases |trace|
  {
    hide CandidateOf, Fitting, Numbered, Added;
    if trace == [] || Full(c) {
      NothingFits(target, c, trace);
    } else {
      var c1, items := Observe(target, c, trace[0]), Items(trace[1..]);
      CollectedItems(target, c1, trace[1..]);
      if trace[0].Found? {
        FittingStep(|c.candidates|, trace[0].item, items);
        AddedFirst(target, c, trace[0].item, Collect(target, c, trace), Fitting(|c1.candidates|, items));
      } else {
        assert Items(trace) == items;
        AddedIgnores(target, c, c1, Collect(target, c, trace), Fitting(|c.candidates|, items));
      }
    }
  }

  lemma AddedIgnores(target: TargetId, c: Collected, c1: Collected, c': Collected, taken: seq<Item>)
    requires c1.candidates == c.candidates && c1.next == c.next && Added(target, c1, c', taken)
    ensures Added(target, c, c', taken)
  {
  }

  lemma NothingFits(target: TargetId, c: Collected, trace: seq<Event>)
    requires trace == [] || Full(c)
    ensures Added(target, c, Collect(target, c, trace), Fitting(|c.candidates|, Items(trace)))
  {
    if Full(c) {
      CollectWhenFull(target, c, trace);
    }
  }

  lemma NumberedStart(target: TargetId, from: nat, item: Item, items: seq<Item>)
    ensures Numbered(target, from, [item] + items) == [CandidateOf(target, from, item)] + Numbered(target, from + 1,
      items)
  {
  }

  /** Nothing unreadable, and every look at the limit finds fewer candidates than allowed. */
  ghost predicate Undisturbed(count: nat, trace: seq<Event>)
    decreases |trace|
  {
    trace == [] ||
    match trace[0]
    case Check => count < MAX_CANDIDATES && Undisturbed(count, trace[1..])
    case Unreadable(_) => false
    case Found(_) => Undisturbed(count + 1, trace[1..])
  }

  /** The limit is looked at right before a directory is read and right before an entry is recorded. */
  ghost predicate CheckedReads(trace: seq<Event>) {
    forall i :: 0 <= i < |trace| && !trace[i].Check? ==> i > 0 && trace[i - 1] == Check
  }

  lemma CheckedConcat(a: seq<Event>, b: seq<Event>)
    requires CheckedReads(a) && CheckedReads(b)
    ensures CheckedReads(a + b)
  {
    var c := a + b;
    forall i | 0 <= i < |c| && !c[i].Check? ensures i > 0 && c[i - 1] == Check {
      if i >= |a| {
        assert !b[i - |a|].Check?;
      }
    }
  }

  lemma {:induction false} TraceIsChecked(folder: Folder, path: seq<Name>, depth: nat, free: nat)
    requires depth <= MAX_DEPTH
    ensures CheckedReads(TraceFolder(folder, path, depth, free))
    decreases MAX_DEPTH - depth, 2, 0
  {
    hide TraceEntries;
    if depth < MAX_DEPTH {
      EntriesAreChecked(folder.entries, path, depth, free);
      CheckedConcat([Check], TraceEntries(folder.entries, path, depth, free));
    }
  }

  lemma {:induction false} EntriesAreChecked(entries: seq<DirEntry>, path: seq<Name>, depth: nat, free: nat)
    requires depth < MAX_DEPTH
    ensures CheckedReads(TraceEntries(entries, path, depth, free))
    decreases MAX_DEPTH - depth, 1, |entries|
  {
    hide TraceEntry, CheckedReads;
    if entries == [] {
      NothingToCheck();
    } else {
      EntryIsChecked(entries[0], path, depth, free);
      EntriesAreChecked(entries[1..], path, depth, free);
      CheckedConcat(TraceEntry(entries[0], path, depth, free), TraceEntries(entries[1..], path, depth, free));
    }
  }

  lemma NothingToCheck()
    ensures CheckedReads([])
  {
  }

  lemma {:induction false} EntryIsChecked(e: DirEntry, path: seq<Name>, depth: nat, free: nat)
    requires depth < MAX_DEPTH
    ensures CheckedReads(TraceEntry(e, path, depth, free))
    decreases MAX_DEPTH - depth, 0, 0
  {
    hide TraceFolder, ItemOf, IsRelPath;
    if free > 0 {
      TraceIsChecked(e.sub, path + [e.name], depth + 1, free - 1);
      CheckedConcat([Check, Found(ItemOf(e, path))], TraceFolder(e.sub, path + [e.name], depth + 1, free - 1));
    }
  }

  lemma {:induction false} CleanMeansUndisturbed(target: TargetId, c: Collected, trace: seq<Event>)
    requires |c.candidates| <= MAX_CANDIDATES
    requires forall i :: 0 < i < |trace| && trace[i].Unreadable? ==> trace[i - 1] == Check
    requires trace != [] && trace[0].Unreadable? ==> !Full(c) || c.hitLimit
    ensures
      var c' := Collect(target, c, trace);
      !c'.hitLimit && c'.errors == [] <==> !c.hitLimit && c.errors == [] && Undisturbed(|c.candidates|, trace)
    decreases |trace|
  {
    if trace != [] {
      var c1 := Observe(target, c, trace[0]);
      assert forall i :: 0 < i < |trace[1..]| ==> trace[1..][i - 1] == trace[i] && trace[1..][i] == trace[i + 1];
      CleanMeansUndisturbed(target, c1, trace[1..]);
      ErrorsStay(target, c1, trace[1..]);
      if trace[0].Found? && Full(c) {
        BeyondTheLimit(|c.candidates|, |c.candidates| + 1, trace[1..]);
      }
    }
  }

  /** The limit is hit only with candidates. */
  lemma {:induction false} LimitNeedsCandidates(target: TargetId, c: Collected, trace: seq<Event>)
    ensures Collect(target, c, trace).hitLimit && !c.hitLimit ==> Full(Collect(target, c, trace))
    decreases |trace|
  {
    if Full(c) {
      CollectWhenFull(target, c, trace);
    } else if trace != [] {
      LimitNeedsCandidates(target, Observe(target, c, trace[0]), trace[1..]);
    }
  }

  /** The directories that could not be listed, as text, in the order of the walk. */
  function Unlistings(trace: seq<Event>): seq<string> {
    if trace == [] then []
    else (if trace[0].Unreadable? then [Text(trace[0].path)] else []) + Unlistings(trace[1..])
  }

  /** One event of a trace that stays below the limit. */
  lemma ErrorsStep(target: TargetId, c: Collected, trace: seq<Event>)
    requires |c.candidates| + |Items(trace)| < MAX_CANDIDATES
    ensures trace == [] ==> c.errors + Unlistings(trace) == c.errors
    ensures trace != [] ==>
      var c1, rest := Observe(target, c, trace[0]), trace[1..];
      && |c1.candidates| + |Items(rest)| < MAX_CANDIDATES
      && c.errors + Unlistings(trace) == c1.errors + Unlistings(rest)
  {
    hide Text, CandidateOf;
    if trace != [] {
      var rest := Unlistings(trace[1..]);
      if trace[0].Unreadable? {
        var first := [Text(trace[0].path)];
        assert (c.errors + first) + rest == c.errors + (first + rest);
      } else {
        assert Unlistings(trace) == [] + rest == rest;
      }
    }
  }

  lemma {:induction false} CollectedErrors(target: TargetId, c: Collected, trace: seq<Event>)
    requires |c.candidates| + |Items(trace)| < MAX_CANDIDATES
    ensures Collect(target, c, trace).errors == c.errors + Unlistings(trace)
    decreases |trace|
  {
    hide Observe, Unlistings, Items;
    ErrorsStep(target, c, trace);
    if trace != [] {
      var c1, rest := Observe(target, c, trace[0]), trace[1..];
      CollectedErrors(target, c1, rest);
    }
  }

  lemma {:induction false} BeyondTheLimit(a: nat, b: nat, trace: seq<Event>)
    requires a >= MAX_CANDIDATES && b >= MAX_CANDIDATES
    ensures Undisturbed(a, trace) <==> Undisturbed(b, trace)
    decreases |trace|
  {
    if trace != [] && trace[0].Found? {
      BeyondTheLimit(a + 1, b + 1, trace[1..]);
    }
  }

  lemma {:induction false} ErrorsStay(target: TargetId, c: Collected, trace: seq<Event>)
    ensures c.errors <= Collect(target, c, trace).errors
    ensures c.hitLimit ==> Collect(target, c, trace).hitLimit
    decreases |trace|
  {
    if trace != [] {
      ErrorsStay(target, Observe(target, c, trace[0]), trace[1..]);
    }
  }

  // ------------------------------------------------------------------ The chunks

  ghost predicate Uniform(chunks: seq<seq<Candidate>>, size: nat) {
    forall j :: 0 <= j < |chunks| ==> |chunks[j]| == size
  }

  /** Zero behaves like one: a chunk is handed over as soon as the buffer is at least that long. */
  function ChunkSize(size: nat): nat {
    if size == 0 then 1 else size
  }

  /** Where a stream stands after `items`: full chunks, a short buffer, and nothing beyond the first refusal. */
  ghost predicate StreamInv(
    target: TargetId, from: nat, size: nat, answers: nat -> Answer, items: seq<Item>, s: Stream)
  {
    && from <= s.next <= from + |items|
    && Flatten(s.chunks) + s.buffer == Numbered(target, from, items[..s.next - from])
    && Uniform(s.chunks, ChunkSize(size))
    && |s.buffer| < ChunkSize(size)
    && (s.state == Continue ==> s.next == from + |items| && forall j :: 0 <= j < |s.chunks| ==> answers(j) == Continue)
    && (s.state != Continue ==> s.buffer == [] && RefusedLast(answers, s.chunks) && answers(|s.chunks| - 1) == s.state)
  }

  /** The last chunk was the first to be answered with anything but Continue. */
  ghost predicate RefusedLast(answers: nat -> Answer, chunks: seq<seq<Candidate>>) {
    && chunks != [] && answers(|chunks| - 1) != Continue
    && forall j :: 0 <= j < |chunks| - 1 ==> answers(j) == Continue
  }

  lemma ItemsEnd(trace: seq<Event>, event: Event)
    ensures Items(trace + [event]) == Items(trace) + (if event.Found? then [event.item] else [])
  {
    ItemsConcat(trace, [event]);
    assert Items([event][1..]) == [];
  }

  lemma {:induction false} ItemsConcat(a: seq<Event>, b: seq<Event>)
    ensures Items(a + b) == Items(a) + Items(b)
  {
    if a == [] {
      assert a + b == b;
    } else {
      assert (a + b)[1..] == a[1..] + b && (a + b)[0] == a[0];
      ItemsConcat(a[1..], b);
      var first: seq<Item> := if a[0].Found? then [a[0].item] else [];
      assert first + (Items(a[1..]) + Items(b)) == (first + Items(a[1..])) + Items(b);
    }
  }

  lemma NumberedEnd(target: TargetId, from: nat, items: seq<Item>, item: Item)
    ensures Numbered(target, from, items + [item]) == Numbered(target, from, items) + [CandidateOf(target,
      from + |items|, item)]
  {
  }

  lemma FlattenEnd(chunks: seq<seq<Candidate>>, chunk: seq<Candidate>)
    ensures Flatten(chunks + [chunk]) == Flatten(chunks) + chunk
  {
    assert (chunks + [chunk])[..|chunks|] == chunks;
  }

  lemma FeedKeepsStreamInv(
    target: TargetId, from: nat, size: nat, answers: nat -> Answer, items: seq<Item>, s: Stream, item: Item)
    requires StreamInv(target, from, size, answers, items, s)
    ensures StreamInv(target, from, size, answers, items + [item], Feed(target, size, answers, s, Found(item)))
  {
    hide Numbered, Flatten, CandidateOf;
    if s.state == Continue {
      NumberedEnd(target, from, items, item);
      var pushed := s.buffer + [CandidateOf(target, s.next, item)];
      FlattenEnd(s.chunks, pushed);
      assert items[..s.next - from] == items && (items + [item])[..s.next + 1 - from] == items + [item];
      assert Flatten(s.chunks) + pushed == Numbered(target, from, items + [item]);
      assert Flatten(s.chunks + [pushed]) + [] == Flatten(s.chunks + [pushed]);
    } else {
      assert (items + [item])[..s.next - from] == items[..s.next - from];
    }
  }

  lemma {:induction false} StreamedItems(
    target: TargetId, from: nat, size: nat, answers: nat -> Answer, trace: seq<Event>)
    ensures StreamInv(
      target, from, size, answers, Items(trace), FeedAll(target, size, answers, Stream([], [], Continue, from), trace))
    decreases |trace|
  {
    hide Feed, Items, StreamInv;
    var s0 := Stream([], [], Continue, from);
    if trace == [] {
      StreamStarts(target, from, size, answers);
    } else {
      var front, last := trace[..|trace| - 1], trace[|trace| - 1];
      assert trace == front + [last];
      StreamedItems(target, from, size, answers, front);
      ItemsEnd(front, last);
      FeedConcat(target, size, answers, s0, front, [last]);
      var s := FeedAll(target, size, answers, s0, front);
      assert FeedAll(target, size, answers, s, [last]) == Feed(target, size, answers, s, last);
      if last.Found? {
        FeedKeepsStreamInv(target, from, size, answers, Items(front), s, last.item);
      } else {
        FeedIgnores(target, size, answers, s, last);
        assert Items(front) + [] == Items(front);
      }
    }
  }

  lemma StreamStarts(target: TargetId, from: nat, size: nat, answers: nat -> Answer)
    ensures StreamInv(target, from, size, answers, Items([]), Stream([], [], Continue, from))
  {
  }

  lemma FeedIgnores(target: TargetId, size: nat, answers: nat -> Answer, s: Stream, event: Event)
    requires !event.Found?
    ensures Feed(target, size, answers, s, event) == s
  {
  }

  // ------------------------------------------------------------------ Scanning a target

  /** What opening the target's base path gives. */
  datatype Root = Missing | Unopenable | Opened(folder: Folder)

  datatype ScanStatus = Complete | Partial | Failed

  datatype ScanResult = ScanResult(candidates: seq<Candidate>, status: ScanStatus, errors: seq<string>)

  /** The permits left for directories below the root, which takes one if it can. */
  function BelowRoot(free: nat): nat {
    if free > 0 then free - 1 else 0
  }

  function RootTrace(folder: Folder, free: nat): seq<Event> {
    TraceFolder(folder, [], 0, BelowRoot(free))
  }

  /**
   The collecting scan: the first 50,000 items of the trace under consecutive identifiers, and
   Complete exactly when nothing was unreadable or cut off. At most 17 permits are out at any time,
   and all are back at the end.
   */
  method ScanTarget(scanner: CandidateScanner, target: TargetId, root: Root, pool: FdPool) returns (r: ScanResult)
    requires root.Opened? ==> Listed(root.folder)
    modifies scanner, pool
    ensures root.Missing? ==> r == ScanResult([], Complete, [])
    ensures root.Unopenable? ==> r.candidates == [] && r.status == ScanStatus.Failed && r.errors != []
    ensures root.Opened? ==>
      var trace := RootTrace(root.folder, Free(old(pool.active), pool.max));
      && r.candidates == Numbered(target, old(scanner.counter), Items(trace)[..Least(50_000, |Items(trace)|)])
      && (r.status == Complete <==> Undisturbed(0, trace))
      && (r.status == ScanStatus.Failed <==> r.candidates == [] && r.errors != [])
      && (|Items(trace)| < MAX_CANDIDATES ==> r.errors == Unlistings(trace))
    ensures scanner.counter == old(scanner.counter) + |r.candidates|
    ensures PermitsKept(old((pool.active, pool.peak)), pool.active, pool.peak, 17)
  {
    var permit := pool.AcquireFdPermit();
    if !root.Opened? {
      if permit {
        pool.DropFdPermit();
      }
      return if root.Missing? then ScanResult([], Complete, []) else ScanResult([], ScanStatus.Failed, [""]);
    }
    var out := new Collection();
    ghost var trace := RootTrace(root.folder, Free(old(pool.active), pool.max));
    ghost var c0 := scanner.View(out);
    scanner.ScanRecursive(target, root.folder, "", [], pool, out, 0);
    CollectedItems(target, c0, trace);
    assert Fitting(0, Items(trace)) == Items(trace)[..Least(MAX_CANDIDATES, |Items(trace)|)];
    TraceIsChecked(root.folder, [], 0, BelowRoot(Free(old(pool.active), pool.max)));
    CleanMeansUndisturbed(target, c0, trace);
    LimitNeedsCandidates(target, c0, trace);
    if |Items(trace)| < MAX_CANDIDATES {
      CollectedErrors(target, c0, trace);
    }
    if permit {
      pool.DropFdPermit();
    }
    var status := if out.hitLimit then Partial
      else if out.errors != [] && out.candidates == [] then ScanStatus.Failed
      else if out.errors != [] then Partial
      else Complete;
    r := ScanResult(out.candidates, status, out.errors);
  }

  /** The whole list as the streaming scan would deliver it, had the consumer no objection. */
  ghost function Everything(target: TargetId, from: nat, root: Root, free: nat): seq<Candidate> {
    if root.Opened? then Numbered(target, from, Items(RootTrace(root.folder, free))) else []
  }

  ghost predicate Even(chunks: seq<seq<Candidate>>, size: nat) {
    forall j :: 0 <= j < |chunks| ==> 1 <= |chunks[j]| <= size && (j < |chunks| - 1 ==> |chunks[j]| == size)
  }

  /**
   The streaming scan, for any consumer: the chunks are consecutive pieces of the whole list from its
   start, all but the last exactly of the chunk size; the consumer is not called again after its first
   answer other than Continue; and unless the last answer was such a one, nothing is missing.
   */
  method ScanTargetStreaming(
    scanner: CandidateScanner, target: TargetId, root: Root, pool: FdPool, size: nat, out: Consumer) returns (ok: bool)
    requires root.Opened? ==> Listed(root.folder)
    requires out.buffer == [] && out.chunks == []
    modifies scanner, pool, out
    ensures
      var all := Everything(target, old(scanner.counter), root, Free(old(pool.active), pool.max));
      && Flatten(out.chunks) <= all
      && (RefusedLast(out.answers, out.chunks) || Flatten(out.chunks) == all)
    ensures Even(out.chunks, ChunkSize(size))
    ensures forall j :: 0 <= j < |out.chunks| - 1 ==> out.answers(j) == Continue
    ensures ok <==> out.chunks == [] || out.answers(|out.chunks| - 1) != Fail
    ensures PermitsKept(old((pool.active, pool.peak)), pool.active, pool.peak, 17)
  {
    hide StreamInv, Numbered, Flatten, Even, Items, FeedAll, TraceFolder, Listed;
    var permit := pool.AcquireFdPermit();
    if !root.Opened? {
      if permit {
        pool.DropFdPermit();
      }
      NoChunks(ChunkSize(size));
      return true;
    }
    ghost var trace := RootTrace(root.folder, Free(old(pool.active), pool.max));
    ghost var from := scanner.counter;
    var state := scanner.ScanStreaming(target, root.folder, "", [], pool, out, size, 0);
    ghost var s := scanner.Streamed(out, state);
    StreamedItems(target, from, size, out.answers, trace);
    StreamEnds(target, from, size, out.answers, Items(trace), s);
    if permit {
      pool.DropFdPermit();
    }
    if state == Fail {
      return false;
    }
    if out.buffer != [] {
      state := out.OnChunk();
    }
    return state != Fail;
  }

  lemma NoChunks(size: nat)
    ensures Flatten<Candidate>([]) == [] && Even([], size)
  {
  }

  /** The chunks after the rest of the buffer was handed over. */
  function Flushed(s: Stream): seq<seq<Candidate>> {
    if s.buffer == [] then s.chunks else s.chunks + [s.buffer]
  }

  lemma StreamEnds(target: TargetId, from: nat, size: nat, answers: nat -> Answer, items: seq<Item>, s: Stream)
    requires StreamInv(target, from, size, answers, items, s)
    ensures Flatten(Flushed(s)) <= Numbered(target, from, items)
    ensures s.state == Continue ==> Flatten(Flushed(s)) == Numbered(target, from, items)
    ensures s.state != Continue ==>
      s.buffer == [] && RefusedLast(answers, s.chunks) && answers(|s.chunks| - 1) == s.state
    ensures Even(Flushed(s), ChunkSize(size))
    ensures forall j :: 0 <= j < |Flushed(s)| - 1 ==> answers(j) == Continue
    ensures s.buffer == [] && s.state == Continue && s.chunks != [] ==> answers(|s.chunks| - 1) == Continue
  {
    hide Numbered, Flatten;
    PrefixOfNumbered(target, from, items, s.next - from);
    FlattenEnd(s.chunks, s.buffer);
    assert Flatten(s.chunks) + [] == Flatten(s.chunks);
  }

  lemma PrefixOfNumbered(target: TargetId, from: nat, items: seq<Item>, n: nat)
    requires n <= |items|
    ensures Numbered(target, from, items[..n]) <= Numbered(target, from, items)
    ensures n == |items| ==> Numbered(target, from, items[..n]) == Numbered(target, from, items)
  {
    assert n == |items| ==> items[..n] == items;
  }

  /**
   With at most 50,000 items and a consumer that never refuses, both scans deliver the same list, for any
   number of permits.
   */
  method ScansAgree(target: TargetId, folder: Folder, maxFds: nat, size: nat, answers: nat -> Answer)
    returns (collected: seq<Candidate>, chunks: seq<seq<Candidate>>)
    requires Listed(folder) && forall j :: answers(j) == Continue
    requires |Items(RootTrace(folder, maxFds))| <= MAX_CANDIDATES
    ensures Flatten(chunks) == collected == Numbered(target, 1, Items(RootTrace(folder, maxFds)))
    ensures Even(chunks, ChunkSize(size))
  {
    var scanner := new CandidateScanner();
    var pool := new FdPool(maxFds);
    var r := ScanTarget(scanner, target, Opened(folder), pool);
    collected := r.candidates;
    scanner := new CandidateScanner();
    pool := new FdPool(maxFds);
    var out := new Consumer(answers);
    var _ := ScanTargetStreaming(scanner, target, Opened(folder), pool, size, out);
    chunks := out.chunks;
    ghost var items := Items(RootTrace(folder, maxFds));
    assert items[..|items|] == items;
  }
}
