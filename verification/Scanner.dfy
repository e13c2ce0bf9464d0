/**
 The candidate scanner: the collecting walk and the chunked walk over a directory tree, both proved
 against one preorder trace of what a scan comes across.
 */
module Scanner {
  import opened Domain
  import opened Paths
  import opened Resources

  const MAX_DEPTH: nat := 16
  const MAX_CANDIDATES: nat := 50_000

  /** A directory as the scan finds it: whether listing it works, and the listing. */
  datatype Folder = Folder(readable: bool, entries: seq<DirEntry>)

  /** One listed entry; `openable` and `sub` matter for real directories only. */
  datatype DirEntry = DirEntry(
    name: Name, isDir: bool, isSymlink: bool, identity: Identity, size: nat, openable: bool, sub: Folder)

  /** What the listing guarantees: single names, and sizes that the byte counter accepts. */
  ghost predicate Listed(folder: Folder) {
    forall i :: 0 <= i < |folder.entries| ==>
      && ValidComponent(folder.entries[i].name)
      && (IsRealDir(folder.entries[i]) || folder.entries[i].size <= MAX_SAFE_BYTES)
      && Listed(folder.entries[i].sub)
  }

  predicate IsRealDir(e: DirEntry) {
    e.isDir && !e.isSymlink
  }

  // ------------------------------------------------------------------ The trace

  datatype Item = Item(path: seq<Name>, identity: Identity, size: nat, isDir: bool, isSymlink: bool)

  /** What happens on the way: a look at the candidate limit, an unreadable directory, an entry. */
  datatype Event = Check | Unreadable(path: seq<Name>) | Found(item: Item)

  function ItemOf(e: DirEntry, path: seq<Name>): Item {
    if IsRealDir(e) then Item(path + [e.name], e.identity, 0, true, false)
    else Item(path + [e.name], e.identity, e.size, false, e.isSymlink)
  }

  /** The trace of one directory at `path`, with `free` permits left for the directories below it. */
  function TraceFolder(folder: Folder, path: seq<Name>, depth: nat, free: nat): seq<Event>
    requires depth <= MAX_DEPTH
    decreases MAX_DEPTH - depth, 2, 0
  {
    if depth == MAX_DEPTH then []
    else [Check] + (if folder.readable then TraceEntries(folder.entries, path, depth, free) else [Unreadable(path)])
  }

  function TraceEntries(entries: seq<DirEntry>, path: seq<Name>, depth: nat, free: nat): seq<Event>
    requires depth < MAX_DEPTH
    decreases MAX_DEPTH - depth, 1, |entries|
  {
    if entries == [] then []
    else TraceEntry(entries[0], path, depth, free) + TraceEntries(entries[1..], path, depth, free)
  }

  function TraceEntry(e: DirEntry, path: seq<Name>, depth: nat, free: nat): seq<Event>
    requires depth < MAX_DEPTH
    decreases MAX_DEPTH - depth, 0, 0
  {
    if !IsRelPath(e.name) then [Check]
    else
      [Check, Found(ItemOf(e, path))]
      + if IsRealDir(e) && free > 0 && e.openable then TraceFolder(e.sub, path + [e.name], depth + 1, free - 1) else []
  }

  function Items(trace: seq<Event>): seq<Item> {
    if trace == [] then []
    else (if trace[0].Found? then [trace[0].item] else []) + Items(trace[1..])
  }

  // ------------------------------------------------------------------ Paths as text

  function Text(path: seq<Name>): string {
    if path == [] then "" else Join(path)
  }

  ghost predicate Names(path: seq<Name>) {
    forall p :: p in path ==> ValidComponent(p)
  }

  lemma {:induction false} JoinEnd(path: seq<Name>)
    requires path != [] && Names(path)
    ensures Join(path) != "" && Join(path)[|Join(path)| - 1] != '/'
  {
    if |path| == 1 {
      assert ValidComponent(path[0]) && path[0][|path[0]| - 1] in path[0];
    } else {
      assert Names(path[1..]);
      JoinEnd(path[1..]);
    }
  }

  lemma PushIsAppend(path: seq<Name>, name: Name)
    requires Names(path)
    ensures Push(Text(path), name) == Text(path + [name])
  {
    if path == [] {
      assert path + [name] == [name];
    } else {
      JoinEnd(path);
      JoinConcat(path, [name]);
    }
  }

  lemma NamesExtend(path: seq<Name>, name: Name)
    requires Names(path) && ValidComponent(name)
    ensures Names(path + [name])
  {
  }

  function CandidateOf(target: TargetId, id: nat, item: Item): Candidate {
    Candidate(id, target, Text(item.path), item.identity, item.size, item.isDir, item.isSymlink)
  }

  // ------------------------------------------------------------------ The collecting walk, as a fold

  datatype Collected = Collected(candidates: seq<Candidate>, errors: seq<string>, hitLimit: bool, next: nat)

  predicate Full(c: Collected) {
    |c.candidates| >= MAX_CANDIDATES
  }

  function Observe(target: TargetId, c: Collected, event: Event): Collected {
    match event
    case Check => if Full(c) then c.(hitLimit := true) else c
    case Unreadable(path) => if Full(c) then c else c.(errors := c.errors + [Text(path)])
    case Found(item) =>
      if Full(c) then c
      else c.(candidates := c.candidates + [CandidateOf(target, c.next, item)], next := c.next + 1)
  }

  function Collect(target: TargetId, c: Collected, trace: seq<Event>): Collected
    decreases |trace|
  {
    if trace == [] then c else Collect(target, Observe(target, c, trace[0]), trace[1..])
  }

  lemma {:induction false} CollectConcat(target: TargetId, c: Collected, a: seq<Event>, b: seq<Event>)
    ensures Collect(target, c, a + b) == Collect(target, Collect(target, c, a), b)
    decreases |a|
  {
    if a == [] {
      assert a + b == b;
    } else {
      assert (a + b)[1..] == a[1..] + b && (a + b)[0] == a[0];
      CollectConcat(target, Observe(target, c, a[0]), a[1..], b);
    }
  }

  /** Once the limit is reached, a trace that starts with a check only raises the flag. */
  lemma {:induction false} CollectWhenFull(target: TargetId, c: Collected, trace: seq<Event>)
    requires Full(c)
    ensures Collect(target, c, trace) == if Check in trace then c.(hitLimit := true) else c
    decreases |trace|
  {
    if trace != [] {
      CollectWhenFull(target, Observe(target, c, trace[0]), trace[1..]);
    }
  }

  class Collection {
    var candidates: seq<Candidate>
    var errors: seq<string>
    var hitLimit: bool

    constructor ()
      ensures candidates == [] && errors == [] && !hitLimit
    {
      candidates, errors, hitLimit := [], [], false;
    }
  }

  // ------------------------------------------------------------------ The streaming walk, as a fold

  datatype Answer = Continue | Stop | Fail

  /** `state` is the last answer of the consumer; anything but Continue ends the walk. */
  datatype Stream = Stream(buffer: seq<Candidate>, chunks: seq<seq<Candidate>>, state: Answer, next: nat)

  function Deliver(answers: nat -> Answer, s: Stream): Stream {
    Stream([], s.chunks + [s.buffer], answers(|s.chunks|), s.next)
  }

  function Feed(target: TargetId, size: nat, answers: nat -> Answer, s: Stream, event: Event): Stream {
    if !event.Found? || s.state != Continue then s
    else
      var pushed := s.(buffer := s.buffer + [CandidateOf(target, s.next, event.item)], next := s.next + 1);
      if |pushed.buffer| >= size then Deliver(answers, pushed) else pushed
  }

  function FeedAll(target: TargetId, size: nat, answers: nat -> Answer, s: Stream, trace: seq<Event>): Stream
    decreases |trace|
  {
    if trace == [] then s else FeedAll(target, size, answers, Feed(target, size, answers, s, trace[0]), trace[1..])
  }

  lemma {:induction false} FeedConcat(
    target: TargetId, size: nat, answers: nat -> Answer, s: Stream, a: seq<Event>, b: seq<Event>)
    ensures FeedAll(target, size, answers, s, a + b)
         == FeedAll(target, size, answers, FeedAll(target, size, answers, s, a), b)
    decreases |a|
  {
    if a == [] {
      assert a + b == b;
    } else {
      assert (a + b)[1..] == a[1..] + b && (a + b)[0] == a[0];
      FeedConcat(target, size, answers, Feed(target, size, answers, s, a[0]), a[1..], b);
    }
  }

  lemma {:induction false} FeedWhenOver(
    target: TargetId, size: nat, answers: nat -> Answer, s: Stream, trace: seq<Event>)
    requires s.state != Continue
    ensures FeedAll(target, size, answers, s, trace) == s
    decreases |trace|
  {
    if trace != [] {
      FeedWhenOver(target, size, answers, s, trace[1..]);
    }
  }

  /** The callback and the buffer in front of it; its answers are arbitrary. */
  class Consumer {
    var buffer: seq<Candidate>
    var chunks: seq<seq<Candidate>>
    const answers: nat -> Answer

    constructor (answers: nat -> Answer)
      ensures this.answers == answers && buffer == [] && chunks == []
    {
      this.answers := answers;
      buffer, chunks := [], [];
    }

    /** Hands the buffer over as one chunk. */
    method OnChunk() returns (answer: Answer)
      modifies this
      ensures buffer == [] && chunks == old(chunks) + [old(buffer)] && answer == answers(|old(chunks)|)
    {
      answer := answers(|chunks|);
      chunks := chunks + [buffer];
      buffer := [];
    }
  }

  // ------------------------------------------------------------------ The walks

  /** Permits are returned, and at most one more is out per level below. */
  ghost predicate PermitsKept(before: (nat, nat), active: nat, peak: nat, levels: nat) {
    active == before.0 && (peak <= before.1 || peak <= before.0 + levels)
  }

  function Free(active: nat, max: nat): nat {
    if active < max then max - active else 0
  }

  class CandidateScanner {
    var counter: nat

    constructor ()
      ensures counter == 1
    {
      counter := 1;
    }

    ghost function View(out: Collection): Collected
      reads this, out
    {
      Collected(out.candidates, out.errors, out.hitLimit, counter)
    }

    ghost function Streamed(out: Consumer, state: Answer): Stream
      reads this, out
    {
      Stream(out.buffer, out.chunks, state, counter)
    }

    method NextCandidateId() returns (id: nat)
      modifies this
      ensures id == old(counter) && counter == old(counter) + 1
    {
      id := counter;
      counter := counter + 1;
    }

    method ScanRecursive(
      target: TargetId, folder: Folder, prefix: string, ghost path: seq<Name>,
      pool: FdPool, out: Collection, depth: nat)
      requires depth <= MAX_DEPTH && Listed(folder) && Names(path) && prefix == Text(path)
      modifies this, pool, out
      ensures View(out) == Collect(target, old(View(out)), TraceFolder(folder, path, depth, Free(old(pool.active),
        pool.max)))
      ensures PermitsKept(old((pool.active, pool.peak)), pool.active, pool.peak, MAX_DEPTH - depth)
      decreases MAX_DEPTH - depth, 2, 0
    {
      if depth >= MAX_DEPTH {
        return;
      }
      ghost var c0 := View(out);
      ghost var free := Free(pool.active, pool.max);
      ghost var trace := TraceFolder(folder, path, depth, free);
      if |out.candidates| >= MAX_CANDIDATES {
        out.hitLimit := true;
        assert trace[0] == Check;
        CollectWhenFull(target, c0, trace);
        return;
      }
      assert trace[0] == Check && Observe(target, c0, Check) == c0;
      if !folder.readable {
        assert trace[1..] == [Unreadable(path)];
        out.errors := out.errors + [prefix];
        CollectFirst(target, c0, trace);
        assert trace[2..] == [];
        return;
      }
      assert trace[1..] == TraceEntries(folder.entries, path, depth, free);
      ScanEntries(target, folder.entries, prefix, path, pool, out, depth);
    }

    method ScanEntries(
      target: TargetId, entries: seq<DirEntry>, prefix: string, ghost path: seq<Name>,
      pool: FdPool, out: Collection, depth: nat)
      requires depth < MAX_DEPTH && Listed(Folder(true, entries)) && Names(path) && prefix == Text(path)
      modifies this, pool, out
      ensures View(out) == Collect(target, old(View(out)), TraceEntries(entries, path, depth, Free(old(pool.active),
        pool.max)))
      ensures PermitsKept(old((pool.active, pool.peak)), pool.active, pool.peak, MAX_DEPTH - depth)
      decreases MAX_DEPTH - depth, 1, 0
    {
      ghost var c0 := View(out);
      ghost var free := Free(pool.active, pool.max);
      ghost var whole := Collect(target, c0, TraceEntries(entries, path, depth, free));
      var i := 0;
      while i < |entries|
        invariant 0 <= i <= |entries|
        invariant PermitsKept(old((pool.active, pool.peak)), pool.active, pool.peak, MAX_DEPTH - depth)
        invariant Collect(target, View(out), TraceEntries(entries[i..], path, depth, free)) == whole
      {
        ghost var c := View(out);
        ghost var rest := TraceEntries(entries[i..], path, depth, free);
        ghost var mine := TraceEntry(entries[i], path, depth, free);
        assert entries[i..][1..] == entries[i + 1..];
        if |out.candidates| >= MAX_CANDIDATES {
          out.hitLimit := true;
          assert rest[0] == Check;
          CollectWhenFull(target, c, rest);
          return;
        }
        CollectConcat(target, c, mine, TraceEntries(entries[i + 1..], path, depth, free));
        ScanEntry(target, entries[i], prefix, path, pool, out, depth);
        i := i + 1;
      }
    }

    /** One round of the loop: record the entry and go down into it if it is a directory that can be opened. */
    method ScanEntry(
      target: TargetId, e: DirEntry, prefix: string, ghost path: seq<Name>,
      pool: FdPool, out: Collection, depth: nat)
      requires depth < MAX_DEPTH && ValidComponent(e.name) && Listed(e.sub)
      requires IsRealDir(e) || e.size <= MAX_SAFE_BYTES
      requires Names(path) && prefix == Text(path)
      requires |out.candidates| < MAX_CANDIDATES
      modifies this, pool, out
      ensures View(out) == Collect(target, old(View(out)), TraceEntry(e, path, depth, Free(old(pool.active), pool.max)))
      ensures PermitsKept(old((pool.active, pool.peak)), pool.active, pool.peak, MAX_DEPTH - depth)
      decreases MAX_DEPTH - depth, 0, 0
    {
      hide IsRelPath, TraceFolder, Push, Listed, Text;
      ghost var c0 := View(out);
      ghost var trace := TraceEntry(e, path, depth, Free(pool.active, pool.max));
      CollectFirst(target, c0, trace);
      var joined := JoinChild(prefix, e.name);
      if joined.None? {
        return;
      }
      PushIsAppend(path, e.name);
      NamesExtend(path, e.name);
      var id := NextCandidateId();
      if e.isDir && !e.isSymlink {
        out.candidates := out.candidates + [Candidate(id, target, joined.value, e.identity, 0, true, false)];
        assert View(out) == Observe(target, c0, Found(ItemOf(e, path)));
        var permit := pool.AcquireFdPermit();
        if permit {
          if e.openable {
            ScanRecursive(target, e.sub, joined.value, path + [e.name], pool, out, depth + 1);
          }
          pool.DropFdPermit();
        }
      } else {
        // The byte counter's constructor asserts its bound.
        assert e.size <= MAX_SAFE_BYTES;
        out.candidates := out.candidates + [Candidate(id, target, joined.value, e.identity, e.size, false,
          e.isSymlink)];
      }
    }

    method ScanStreaming(
      target: TargetId, folder: Folder, prefix: string, ghost path: seq<Name>,
      pool: FdPool, out: Consumer, size: nat, depth: nat)
      returns (state: Answer)
      requires depth <= MAX_DEPTH && Listed(folder) && Names(path) && prefix == Text(path)
      modifies this, pool, out
      ensures Streamed(out, state) == FeedAll(
        target, size, out.answers, old(Streamed(out, Continue)),
        TraceFolder(folder, path, depth, Free(old(pool.active), pool.max)))
      ensures PermitsKept(old((pool.active, pool.peak)), pool.active, pool.peak, MAX_DEPTH - depth)
      decreases MAX_DEPTH - depth, 2, 0
    {
      if depth >= MAX_DEPTH {
        return Continue;
      }
      ghost var s0 := Streamed(out, Continue);
      ghost var free := Free(pool.active, pool.max);
      ghost var trace := TraceFolder(folder, path, depth, free);
      assert trace[0] == Check && Feed(target, size, out.answers, s0, Check) == s0;
      if !folder.readable {
        FeedFirst(target, size, out.answers, s0, trace);
        assert trace[1] == Unreadable(path) && trace[2..] == [];
        return Continue;
      }
      assert trace[1..] == TraceEntries(folder.entries, path, depth, free);
      state := Continue;
      var i := 0;
      while i < |folder.entries|
        invariant 0 <= i <= |folder.entries|
        invariant state == Continue
        invariant PermitsKept(old((pool.active, pool.peak)), pool.active, pool.peak, MAX_DEPTH - depth)
        invariant FeedAll(target, size, out.answers, Streamed(out, Continue), TraceEntries(folder.entries[i..],
          path, depth, free))
               == FeedAll(target, size, out.answers, s0, trace)
      {
        ghost var s := Streamed(out, Continue);
        ghost var rest := TraceEntries(folder.entries[i + 1..], path, depth, free);
        assert folder.entries[i..][1..] == folder.entries[i + 1..];
        FeedConcat(target, size, out.answers, s, TraceEntry(folder.entries[i], path, depth, free), rest);
        state := StreamEntry(target, folder.entries[i], prefix, path, pool, out, size, depth);
        if state != Continue {
          FeedWhenOver(target, size, out.answers, Streamed(out, state), rest);
          return;
        }
        i := i + 1;
      }
    }

    /** Buffers one candidate and hands over a full buffer. */
    method BufferEntry(target: TargetId, e: DirEntry, text: string, ghost path: seq<Name>, out: Consumer, size: nat)
      returns (state: Answer)
      requires (IsRealDir(e) || e.size <= MAX_SAFE_BYTES) && text == Text(path + [e.name])
      modifies this, out
      ensures Streamed(out, state)
        == Feed(target, size, out.answers, old(Streamed(out, Continue)), Found(ItemOf(e, path)))
    {
      hide Text;
      var id := NextCandidateId();
      var candidate := if e.isDir && !e.isSymlink
        then Candidate(id, target, text, e.identity, 0, true, false)
        else assert e.size <= MAX_SAFE_BYTES; Candidate(id, target, text, e.identity, e.size, false, e.isSymlink);
      out.buffer := out.buffer + [candidate];
      state := Continue;
      if |out.buffer| >= size {
        state := out.OnChunk();
      }
    }

    /** One round of the streaming loop: buffer the entry, hand over a full buffer, go down. */
    method StreamEntry(
      target: TargetId, e: DirEntry, prefix: string, ghost path: seq<Name>,
      pool: FdPool, out: Consumer, size: nat, depth: nat)
      returns (state: Answer)
      requires depth < MAX_DEPTH && ValidComponent(e.name) && Listed(e.sub)
      requires IsRealDir(e) || e.size <= MAX_SAFE_BYTES
      requires Names(path) && prefix == Text(path)
      modifies this, pool, out
      ensures Streamed(out, state) == FeedAll(
        target, size, out.answers, old(Streamed(out, Continue)), TraceEntry(e, path, depth, Free(old(pool.active),
          pool.max)))
      ensures PermitsKept(old((pool.active, pool.peak)), pool.active, pool.peak, MAX_DEPTH - depth)
      decreases MAX_DEPTH - depth, 0, 0
    {
      hide IsRelPath, TraceFolder, Push, Listed, Text, Names;
      ghost var s0 := Streamed(out, Continue);
      ghost var trace := TraceEntry(e, path, depth, Free(pool.active, pool.max));
      FeedFirst(target, size, out.answers, s0, trace);
      state := Continue;
      var joined := JoinChild(prefix, e.name);
      if joined.None? {
        return;
      }
      PushIsAppend(path, e.name);
      NamesExtend(path, e.name);
      state := BufferEntry(target, e, joined.value, path, out, size);
      if state != Continue {
        FeedWhenOver(target, size, out.answers, Streamed(out, state), trace[2..]);
        return;
      }
      if e.isDir && !e.isSymlink {
        var permit := pool.AcquireFdPermit();
        if permit {
          if e.openable {
            state := ScanStreaming(target, e.sub, joined.value, path + [e.name], pool, out, size, depth + 1);
          }
          pool.DropFdPermit();
        }
      }
    }
  }

  lemma CollectFirst(target: TargetId, c: Collected, trace: seq<Event>)
    requires !Full(c) && trace != [] && trace[0] == Check
    ensures |trace| == 1 ==> Collect(target, c, trace) == c
    ensures |trace| > 1 ==> Collect(target, c, trace) == Collect(target, Observe(target, c, trace[1]), trace[2..])
  {
    if |trace| > 1 {
      assert trace[1..][1..] == trace[2..];
    }
  }

  lemma FeedFirst(target: TargetId, size: nat, answers: nat -> Answer, s: Stream, trace: seq<Event>)
    requires trace != [] && trace[0] == Check
    ensures |trace| == 1 ==> FeedAll(target, size, answers, s, trace) == s
    ensures |trace| > 1 ==>
      FeedAll(target, size, answers, s, trace) == FeedAll(target, size, answers, Feed(target, size, answers, s,
        trace[1]), trace[2..])
  {
    if |trace| > 1 {
      assert trace[1..][1..] == trace[2..];
    }
  }
}
