/** Permits for file descriptors and exclusive target locks, under any interleaving of holders. */
module Resources {
  import opened Domain

  // ------------------------------------------------------------------ File descriptors

  /** Taking a permit out of the pool, if one is free. */
  function TakePermit(active: nat, max: nat): (nat, bool) {
    if active < max then (active + 1, true) else (active, false)
  }

  function GivePermit(active: nat): nat {
    if active == 0 then 0 else active - 1
  }

  /** The pool of descriptor permits; `peak` remembers the most that were out at once. */
  class FdPool {
    var active: nat
    const max: nat
    ghost var peak: nat

    constructor (max: nat)
      ensures this.max == max && active == 0 && peak == 0
    {
      this.max := max;
      active := 0;
      peak := 0;
    }

    /** Hands out a permit unless the pool is (and stays) exhausted. */
    method AcquireFdPermit() returns (ok: bool)
      modifies this
      ensures (active, ok) == TakePermit(old(active), max)
      ensures peak == if active > old(peak) then active else old(peak)
    {
      ok := active < max;
      if ok {
        active := active + 1;
      }
      if active > peak {
        peak := active;
      }
    }

    method DropFdPermit()
      modifies this
      ensures active == GivePermit(old(active))
      ensures peak == old(peak)
    {
      if active > 0 {
        active := active - 1;
      }
    }
  }

  /** What threads do to the pool; each permit is given back at most once, when its owner drops it. */
  datatype FdStep = TakeFd | GiveFd(permit: nat)

  datatype FdWorld = FdWorld(active: nat, live: set<nat>, issued: nat)

  function FdAdvance(w: FdWorld, step: FdStep, max: nat): FdWorld {
    match step
    case TakeFd =>
      var (active, ok) := TakePermit(w.active, max);
      if ok then FdWorld(active, w.live + {w.issued}, w.issued + 1) else w.(active := active)
    case GiveFd(permit) =>
      if permit in w.live then FdWorld(GivePermit(w.active), w.live - {permit}, w.issued) else w
  }

  function FdInterleave(steps: seq<FdStep>, max: nat): FdWorld {
    if steps == [] then FdWorld(0, {}, 0) else FdAdvance(FdInterleave(steps[..|steps| - 1], max),
      steps[|steps| - 1], max)
  }

  ghost predicate Counts(w: FdWorld, max: nat) {
    w.active == |w.live| <= max && forall p :: p in w.live ==> p < w.issued
  }

  lemma NothingOut(max: nat)
    ensures Counts(FdWorld(0, {}, 0), max)
  {
  }

  lemma FdAdvanceCounts(w: FdWorld, step: FdStep, max: nat)
    requires Counts(w, max)
    ensures Counts(FdAdvance(w, step, max), max)
  {
  }

  /** In every interleaving the counter is the number of permits that are out, within the maximum. */
  lemma {:induction false} ActiveCountsLivePermits(steps: seq<FdStep>, max: nat)
    ensures Counts(FdInterleave(steps, max), max)
  {
    hide FdAdvance, Counts;
    if steps == [] {
      NothingOut(max);
    } else {
      ActiveCountsLivePermits(steps[..|steps| - 1], max);
      FdAdvanceCounts(FdInterleave(steps[..|steps| - 1], max), steps[|steps| - 1], max);
    }
  }

  // ------------------------------------------------------------------ Target locks

  datatype LockPermit = LockPermit(target: TargetId, attempt: nat, reservation: nat)

  datatype Holder = Holder(attempt: nat, reservation: nat)

  datatype Locks = Locks(table: map<TargetId, Holder>, counter: nat)

  /** Locks a free target under a new reservation; a locked one is a collision. */
  function Lock(l: Locks, target: TargetId, attempt: nat): (Locks, Option<LockPermit>) {
    if target in l.table then (l, None)
    else (Locks(l.table[target := Holder(attempt, l.counter)], l.counter + 1), Some(LockPermit(target, attempt,
      l.counter)))
  }

  /** Dropping a permit frees the target only if the reservation is still its own. */
  function Unlock(l: Locks, permit: LockPermit): Locks {
    if permit.target in l.table && l.table[permit.target].reservation == permit.reservation
    then l.(table := l.table - {permit.target}) else l
  }

  class LockTable {
    var table: map<TargetId, Holder>
    var counter: nat

    ghost function View(): Locks
      reads this
    {
      Locks(table, counter)
    }

    constructor ()
      ensures View() == Locks(map[], 1)
    {
      table, counter := map[], 1;
    }

    method AcquireTargetLock(target: TargetId, attempt: nat) returns (permit: Option<LockPermit>)
      modifies this
      ensures (View(), permit) == Lock(old(View()), target, attempt)
    {
      if target in table {
        return None;
      }
      var reservation := counter;
      counter := counter + 1;
      table := table[target := Holder(attempt, reservation)];
      return Some(LockPermit(target, attempt, reservation));
    }

    method DropPermit(permit: LockPermit)
      modifies this
      ensures View() == Unlock(old(View()), permit)
    {
      if permit.target in table {
        if table[permit.target].reservation == permit.reservation {
          table := table - {permit.target};
        }
      }
    }
  }

  // ------------------------------------------------------------------ Every interleaving

  /** What the threads do to the lock table, one atomic step at a time; a permit can only be dropped while it lives. */
  datatype LockStep = Try(target: TargetId, attempt: nat) | Drop(permit: LockPermit)

  datatype World = World(locks: Locks, live: set<LockPermit>, issued: set<LockPermit>)

  function Advance(w: World, step: LockStep): World {
    match step
    case Try(target, attempt) =>
      var (locks, permit) := Lock(w.locks, target, attempt);
      if permit.None? then w.(locks := locks)
      else World(locks, w.live + {permit.value}, w.issued + {permit.value})
    case Drop(permit) =>
      if permit in w.live then World(Unlock(w.locks, permit), w.live - {permit}, w.issued) else w
  }

  function Interleave(steps: seq<LockStep>): World {
    if steps == [] then World(Locks(map[], 1), {}, {})
    else Advance(Interleave(steps[..|steps| - 1]), steps[|steps| - 1])
  }

  ghost predicate Owns(l: Locks, permit: LockPermit) {
    permit.target in l.table && l.table[permit.target] == Holder(permit.attempt, permit.reservation)
  }

  ghost predicate OneOwner(w: World, target: TargetId)
    requires target in w.locks.table
  {
    LockPermit(target, w.locks.table[target].attempt, w.locks.table[target].reservation) in w.live
  }

  ghost predicate Exclusive(w: World) {
    && (forall p :: p in w.live ==> Owns(w.locks, p))
    && (forall t :: t in w.locks.table ==> OneOwner(w, t))
    && w.live <= w.issued
    && (forall p :: p in w.issued ==> p.reservation < w.locks.counter)
    && (forall p, q :: p in w.issued && q in w.issued && p.reservation == q.reservation ==> p == q)
  }

  lemma AdvanceKeepsExclusive(w: World, step: LockStep)
    requires Exclusive(w)
    ensures Exclusive(Advance(w, step))
  {
    var w' := Advance(w, step);
    forall t | t in w'.locks.table ensures OneOwner(w', t) {
      assert t in w.locks.table ==> OneOwner(w, t);
    }
    forall p | p in w'.live ensures Owns(w'.locks, p) {
      assert p in w.live ==> Owns(w.locks, p);
    }
  }

  /**
   After any interleaving: every live permit owns its target, every locked target has exactly one
   live permit and it carries the stored attempt and reservation.
   */
  lemma {:induction false} LocksAreExclusive(steps: seq<LockStep>)
    ensures Exclusive(Interleave(steps))
    ensures forall p, q :: p in Interleave(steps).live && q in Interleave(steps).live && p.target == q.target ==> p == q
  {
    if steps != [] {
      LocksAreExclusive(steps[..|steps| - 1]);
      AdvanceKeepsExclusive(Interleave(steps[..|steps| - 1]), steps[|steps| - 1]);
    }
    forall p, q | p in Interleave(steps).live && q in Interleave(steps).live && p.target == q.target
      ensures p == q
    {
      assert Owns(Interleave(steps).locks, p) && Owns(Interleave(steps).locks, q);
    }
  }

  /** Dropping a live permit frees its own target and no other; a permit that was dropped before frees nothing. */
  lemma DropNeverFreesAnother(steps: seq<LockStep>, permit: LockPermit)
    requires permit in Interleave(steps).issued
    ensures
      var w := Interleave(steps);
      var after := Unlock(w.locks, permit);
      && (permit in w.live ==> after.table == w.locks.table - {permit.target} && permit.target in w.locks.table)
      && (permit !in w.live ==> after == w.locks)
      && forall p :: p in w.live && p != permit ==> Owns(after, p)
  {
    LocksAreExclusive(steps);
    var w := Interleave(steps);
    if permit in w.live {
      assert Owns(w.locks, permit);
    } else if permit.target in w.locks.table {
      assert OneOwner(w, permit.target);
    }
  }
}
