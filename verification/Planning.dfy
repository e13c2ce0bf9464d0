/**
 The planner: permits become one totally ordered list of operations in which every directory waits
 for all planned operations below it.
 */
module Planning {
  import opened Domain
  import opened Paths

  const MAX_OPERATIONS: nat := 10_000

  datatype PermitKind = OfFile(size: nat) | OfDirectory

  /** The part of a policy permit that planning looks at. */
  datatype Permit = Permit(target: TargetId, relPath: string, identity: Identity, kind: PermitKind)

  // ------------------------------------------------------------------ The canonical order

  /** Byte order of UTF-8 strings, which is the order of their code points. */
  predicate StringLE(a: string, b: string) {
    a == "" || (b != "" && (a[0] < b[0] || (a[0] == b[0] && StringLE(a[1..], b[1..]))))
  }

  lemma {:induction false} StringLETotal(a: string, b: string)
    ensures StringLE(a, b) || StringLE(b, a)
    ensures StringLE(a, b) && StringLE(b, a) ==> a == b
  {
    if a != "" && b != "" {
      StringLETotal(a[1..], b[1..]);
      assert a == [a[0]] + a[1..] && b == [b[0]] + b[1..];
    }
  }

  lemma {:induction false} StringLETransitive(a: string, b: string, c: string)
    requires StringLE(a, b) && StringLE(b, c)
    ensures StringLE(a, c)
  {
    if a != "" && a[0] == b[0] == c[0] {
      StringLETransitive(a[1..], b[1..], c[1..]);
    }
  }

  /** The strings agree up to `k`, where the first one ends or has the smaller character. */
  ghost predicate DiffersAt(a: string, b: string, k: nat) {
    k <= |a| && k <= |b| && a[..k] == b[..k] && (k == |a| || (k < |b| && a[k] < b[k]))
  }

  /** The order of strings: a prefix comes first, otherwise the first difference decides. */
  lemma {:induction false} StringLEExactly(a: string, b: string)
    ensures StringLE(a, b) <==> exists k: nat :: DiffersAt(a, b, k)
  {
    if a == "" {
      assert DiffersAt(a, b, 0);
    } else if b != "" {
      var x, y := a[1..], b[1..];
      StringLEExactly(x, y);
      if k: nat :| DiffersAt(x, y, k) {
        if a[0] == b[0] {
          assert a[..k + 1] == [a[0]] + x[..k] && b[..k + 1] == [b[0]] + y[..k];
          assert DiffersAt(a, b, k + 1);
        }
      }
      if a[0] < b[0] {
        assert DiffersAt(a, b, 0);
      }
      if k: nat :| DiffersAt(a, b, k) {
        if k > 0 {
          assert a[..k][0] == b[..k][0] && a[..k][1..] == x[..k - 1] && b[..k][1..] == y[..k - 1];
          assert DiffersAt(x, y, k - 1);
        }
      }
    }
  }

  function Depth(p: Permit): nat {
    |Split(p.relPath)|
  }

  /** Target, then deepest first, then path. */
  predicate PermitLE(a: Permit, b: Permit) {
    if a.target != b.target then StringLE(a.target, b.target)
    else if Depth(a) != Depth(b) then Depth(a) > Depth(b)
    else StringLE(a.relPath, b.relPath)
  }

  lemma PermitLETotal(a: Permit, b: Permit)
    ensures PermitLE(a, b) || PermitLE(b, a)
    ensures PermitLE(a, b) && PermitLE(b, a) ==> SameKey(a, b)
  {
    StringLETotal(a.target, b.target);
    StringLETotal(a.relPath, b.relPath);
  }

  lemma PermitLETransitive(a: Permit, b: Permit, c: Permit)
    requires PermitLE(a, b) && PermitLE(b, c)
    ensures PermitLE(a, c)
  {
    StringLETotal(a.target, b.target);
    if StringLE(a.target, b.target) && StringLE(b.target, c.target) {
      StringLETransitive(a.target, b.target, c.target);
    }
    if StringLE(a.relPath, b.relPath) && StringLE(b.relPath, c.relPath) {
      StringLETransitive(a.relPath, b.relPath, c.relPath);
    }
  }

  /** The scoped key of the planner's path index. */
  predicate SameKey(a: Permit, b: Permit) {
    a.target == b.target && a.relPath == b.relPath
  }

  ghost predicate Ordered(ps: seq<Permit>) {
    forall i, j :: 0 <= i < j < |ps| ==> PermitLE(ps[i], ps[j])
  }

  /** Inserts behind everything that is not greater: the step of a stable sort. */
  function Insert(p: Permit, ps: seq<Permit>): seq<Permit> {
    if ps == [] then [p]
    else if PermitLE(ps[0], p) then [ps[0]] + Insert(p, ps[1..])
    else [p] + ps
  }

  function Sort(ps: seq<Permit>): seq<Permit> {
    if ps == [] then [] else Insert(ps[|ps| - 1], Sort(ps[..|ps| - 1]))
  }

  lemma {:induction false} InsertCounts(p: Permit, ps: seq<Permit>)
    ensures multiset(Insert(p, ps)) == multiset(ps) + multiset{p}
  {
    hide PermitLE;
    if ps != [] {
      assert ps == [ps[0]] + ps[1..];
      InsertCounts(p, ps[1..]);
    }
  }

  lemma PrependKeepsOrder(p: Permit, ps: seq<Permit>)
    requires Ordered(ps) && forall q :: q in ps ==> PermitLE(p, q)
    ensures Ordered([p] + ps)
  {
    hide PermitLE;
  }

  /** Everything behind the slot of `p` is greater. */
  lemma GreaterThanHead(p: Permit, ps: seq<Permit>, q: Permit)
    requires Ordered(ps) && ps != [] && !PermitLE(ps[0], p) && q in ps
    ensures PermitLE(p, q)
  {
    hide PermitLE;
    PermitLETotal(p, ps[0]);
    if q != ps[0] {
      HeadIsLeast(ps, q);
      PermitLETransitive(p, ps[0], q);
    }
  }

  lemma {:induction false} InsertKeepsOrder(p: Permit, ps: seq<Permit>)
    requires Ordered(ps)
    ensures Ordered(Insert(p, ps))
  {
    hide PermitLE;
    if ps != [] && PermitLE(ps[0], p) {
      var rest := Insert(p, ps[1..]);
      InsertKeepsOrder(p, ps[1..]);
      InsertCounts(p, ps[1..]);
      forall q | q in rest ensures PermitLE(ps[0], q) {
        assert q in multiset(rest);
        assert q in ps[1..] || q == p;
      }
      PrependKeepsOrder(ps[0], rest);
    } else if ps != [] {
      forall q | q in ps ensures PermitLE(p, q) {
        GreaterThanHead(p, ps, q);
      }
      PrependKeepsOrder(p, ps);
    }
  }

  lemma {:induction false} SortIsCorrect(ps: seq<Permit>)
    ensures Ordered(Sort(ps))
    ensures multiset(Sort(ps)) == multiset(ps)
  {
    hide Insert, PermitLE;
    if ps != [] {
      var n := |ps| - 1;
      SortIsCorrect(ps[..n]);
      InsertKeepsOrder(ps[n], Sort(ps[..n]));
      InsertCounts(ps[n], Sort(ps[..n]));
      assert ps == ps[..n] + [ps[n]];
    }
  }

  /** The permits with the key of `p`, in the order of the list. */
  function WithKey(ps: seq<Permit>, p: Permit): seq<Permit> {
    if ps == [] then [] else (if SameKey(ps[0], p) then [ps[0]] else []) + WithKey(ps[1..], p)
  }

  lemma {:induction false} WithKeyConcat(a: seq<Permit>, b: seq<Permit>, p: Permit)
    ensures WithKey(a + b, p) == WithKey(a, p) + WithKey(b, p)
  {
    hide SameKey;
    if a == [] {
      assert a + b == b;
    } else {
      assert (a + b)[1..] == a[1..] + b;
      WithKeyConcat(a[1..], b, p);
    }
  }

  lemma {:induction false} NoneWithKey(ps: seq<Permit>, p: Permit)
    requires forall q :: q in ps ==> !SameKey(q, p)
    ensures WithKey(ps, p) == []
  {
    if ps != [] {
      NoneWithKey(ps[1..], p);
    }
  }

  /** What stands behind the slot of `q` has another key. */
  lemma NoTieBehind(q: Permit, ps: seq<Permit>, x: Permit)
    requires Ordered(ps) && ps != [] && !PermitLE(ps[0], q) && x in ps
    ensures !SameKey(x, q)
  {
    HeadIsLeast(ps, x);
    PermitLETotal(q, q);
  }

  lemma {:induction false} InsertIsStable(q: Permit, ps: seq<Permit>, p: Permit)
    requires Ordered(ps)
    ensures WithKey(Insert(q, ps), p) == WithKey(ps, p) + WithKey([q], p)
  {
    hide PermitLE;
    if ps == [] {
    } else if PermitLE(ps[0], q) {
      InsertIsStable(q, ps[1..], p);
      assert Insert(q, ps) == [ps[0]] + Insert(q, ps[1..]);
    } else {
      WithKeyConcat([q], ps, p);
      if SameKey(q, p) {
        forall x | x in ps ensures !SameKey(x, p) {
          NoTieBehind(q, ps, x);
        }
        NoneWithKey(ps, p);
      }
    }
  }

  /** The sort is stable: permits that tie keep their input order. */
  lemma {:induction false} SortIsStable(ps: seq<Permit>, p: Permit)
    ensures WithKey(Sort(ps), p) == WithKey(ps, p)
  {
    hide WithKey, Insert;
    if ps == [] {
      assert Sort(ps) == ps;
    } else {
      var n := |ps| - 1;
      SortIsStable(ps[..n], p);
      SortIsCorrect(ps[..n]);
      InsertIsStable(ps[n], Sort(ps[..n]), p);
      WithKeyConcat(ps[..n], [ps[n]], p);
      assert ps == ps[..n] + [ps[n]];
    }
  }

  /** Permits of the same kind with the same key are the same permit. */
  ghost predicate KeysAgree(ps: multiset<Permit>) {
    forall a, b :: a in ps && b in ps && SameKey(a, b) && a.kind.OfDirectory? == b.kind.OfDirectory? ==> a == b
  }

  lemma HeadsAgree(a: seq<Permit>, b: seq<Permit>)
    requires Ordered(a) && Ordered(b) && a != [] && b != []
    requires a[0] in b && b[0] in a
    ensures SameKey(a[0], b[0])
  {
    hide PermitLE;
    HeadIsLeast(a, b[0]);
    HeadIsLeast(b, a[0]);
    PermitLETotal(a[0], b[0]);
  }

  /** Two ordered lists of the same permits are the same list. */
  lemma {:induction false} OrderedIsUnique(a: seq<Permit>, b: seq<Permit>)
    requires Ordered(a) && Ordered(b)
    requires multiset(a) == multiset(b)
    requires forall p, q :: p in a && q in a && SameKey(p, q) ==> p == q
    ensures a == b
  {
    hide SameKey, Ordered;
    assert |a| == |multiset(a)| == |multiset(b)| == |b|;
    if a != [] {
      assert a[0] in multiset(b) && b[0] in multiset(a);
      HeadsAgree(a, b);
      TailCounts(a);
      TailCounts(b);
      TailIsOrdered(a);
      TailIsOrdered(b);
      OrderedIsUnique(a[1..], b[1..]);
      assert a == [a[0]] + a[1..] && b == [b[0]] + b[1..];
    }
  }

  lemma TailIsOrdered(a: seq<Permit>)
    requires Ordered(a) && a != []
    ensures Ordered(a[1..])
  {
    hide PermitLE;
  }

  lemma TailCounts(a: seq<Permit>)
    requires a != []
    ensures multiset(a[1..]) == multiset(a) - multiset{a[0]}
  {
    assert a == [a[0]] + a[1..];
  }

  lemma HeadIsLeast(a: seq<Permit>, p: Permit)
    requires Ordered(a) && p in a
    ensures a[0] == p || PermitLE(a[0], p)
  {
    var i :| 0 <= i < |a| && a[i] == p;
  }

  // ------------------------------------------------------------------ The plan

  function Select(ps: seq<Permit>, dirs: bool): seq<Permit> {
    if ps == [] then []
    else
      var n := |ps| - 1;
      Select(ps[..n], dirs) + (if ps[n].kind.OfDirectory? == dirs then [ps[n]] else [])
  }

  /** The permits in the order of their operations: all files, then all directories. */
  function Arranged(ps: seq<Permit>): seq<Permit> {
    Sort(Select(ps, false)) + Sort(Select(ps, true))
  }

  /** Operation `j` is what the path index holds for its key when operation `i` is planned. */
  predicate Current(ps: seq<Permit>, j: nat, i: nat)
    requires j < i <= |ps|
  {
    forall k :: j < k < i ==> !SameKey(ps[j], ps[k])
  }

  /** The test that makes `j` a dependency of `i`: same target, and the path starts with the directory and a slash. */
  predicate IsDependency(ps: seq<Permit>, j: nat, i: nat)
    requires j < i < |ps|
  {
    ps[j].target == ps[i].target && ps[i].relPath + "/" <= ps[j].relPath && Current(ps, j, i)
  }

  function DependenciesUpTo(ps: seq<Permit>, i: nat, n: nat): seq<nat>
    requires n <= i < |ps|
  {
    if n == 0 then []
    else DependenciesUpTo(ps, i, n - 1) + (if IsDependency(ps, n - 1, i) then [n] else [])
  }

  function OperationAt(ps: seq<Permit>, i: nat): Operation
    requires i < |ps|
  {
    var p := ps[i];
    if p.kind.OfDirectory? then
      Operation(i + 1, DeleteDirEmpty(p.target, p.relPath, p.identity), DependenciesUpTo(ps, i, i), 0)
    else
      Operation(i + 1, DeleteFile(p.target, p.relPath, p.identity, p.kind.size), [], p.kind.size)
  }

  function OperationsOf(ps: seq<Permit>): seq<Operation> {
    seq(|ps|, i requires 0 <= i < |ps| => OperationAt(ps, i))
  }

  function FileBytes(ps: seq<Permit>): nat {
    if ps == [] then 0
    else
      var n := |ps| - 1;
      var before := FileBytes(ps[..n]);
      if ps[n].kind.OfDirectory? then before else SaturatingAdd(before, ps[n].kind.size)
  }

  function PlanFor(jobId: nat, catalogGen: nat, configGen: nat, permits: seq<Permit>): Plan {
    var ps := Arranged(permits);
    Plan(jobId, catalogGen, configGen, OperationsOf(ps), FileBytes(ps))
  }

  // ------------------------------------------------------------------ Dependencies

  ghost predicate Ascending(ids: seq<nat>) {
    forall a, b :: 0 <= a < b < |ids| ==> ids[a] < ids[b]
  }

  lemma {:induction false} DependencyIds(ps: seq<Permit>, i: nat, n: nat)
    requires n <= i < |ps|
    ensures forall id :: id in DependenciesUpTo(ps, i, n) <==> 1 <= id <= n && IsDependency(ps, id - 1, i)
    ensures Ascending(DependenciesUpTo(ps, i, n))
    decreases n
  {
    if n > 0 {
      DependencyIds(ps, i, n - 1);
      var before := DependenciesUpTo(ps, i, n - 1);
      forall a | 0 <= a < |before| ensures before[a] < n {
        assert before[a] in before;
      }
    }
  }

  /** The hypotheses of the exactness results: one permit per path and paths spelled canonically. */
  ghost predicate Plannable(permits: seq<Permit>) {
    && (forall i, j :: 0 <= i < j < |permits| ==> !SameKey(permits[i], permits[j]))
    && (forall p :: p in permits ==> Canonical(p.relPath))
  }

  /** Operation `j` deletes something strictly below the path of operation `i`, in the same target. */
  ghost predicate StrictlyBelow(ps: seq<Permit>, j: nat, i: nat)
    requires j < |ps| && i < |ps|
  {
    ps[j].target == ps[i].target && StrictPrefix(Components(ps[i].relPath), Components(ps[j].relPath))
  }

  lemma CountAppend(ps: seq<Permit>, last: seq<Permit>, p: Permit)
    requires |last| <= 1
    ensures multiset(ps + last)[p] == multiset(ps)[p] + (if last == [p] then 1 else 0)
  {
  }

  lemma {:induction false} SelectCounts(ps: seq<Permit>, dirs: bool, p: Permit)
    ensures multiset(Select(ps, dirs))[p] == if p.kind.OfDirectory? == dirs then multiset(ps)[p] else 0
  {
    if ps != [] {
      var n := |ps| - 1;
      SelectCounts(ps[..n], dirs, p);
      assert ps == ps[..n] + [ps[n]];
      CountAppend(ps[..n], [ps[n]], p);
      CountAppend(Select(ps[..n], dirs), if ps[n].kind.OfDirectory? == dirs then [ps[n]] else [], p);
    }
  }

  lemma SelectKind(ps: seq<Permit>, dirs: bool, p: Permit)
    requires p in Sort(Select(ps, dirs))
    ensures p.kind.OfDirectory? == dirs
  {
    SortIsCorrect(Select(ps, dirs));
    assert p in multiset(Sort(Select(ps, dirs)));
    SelectCounts(ps, dirs, p);
  }

  /** Arranging permutes the permits: one operation per permit. */
  lemma ArrangedIsPermutation(permits: seq<Permit>)
    ensures multiset(Arranged(permits)) == multiset(permits)
    ensures |Arranged(permits)| == |permits|
  {
    hide Sort, Select, PermitLE;
    SortIsCorrect(Select(permits, false));
    SortIsCorrect(Select(permits, true));
    assert multiset(Arranged(permits)) == multiset(Select(permits, false)) + multiset(Select(permits, true));
    forall p: Permit ensures multiset(Arranged(permits))[p] == multiset(permits)[p] {
      SelectCounts(permits, false, p);
      SelectCounts(permits, true, p);
    }
    assert multiset(Arranged(permits)) == multiset(permits);
    assert |Arranged(permits)| == |multiset(Arranged(permits))|;
  }

  /** Files come before directories, and each of the two groups is in canonical order. */
  lemma ArrangedOrder(permits: seq<Permit>, i: nat, j: nat)
    requires i < j < |Arranged(permits)|
    ensures
      var ps := Arranged(permits);
      (ps[i].kind.OfDirectory? ==>
        ps[j].kind.OfDirectory?) && (ps[i].kind.OfDirectory? == ps[j].kind.OfDirectory? ==> PermitLE(ps[i], ps[j]))
  {
    hide Sort, Select, PermitLE;
    var files, dirs := Sort(Select(permits, false)), Sort(Select(permits, true));
    SortIsCorrect(Select(permits, false));
    SortIsCorrect(Select(permits, true));
    assert Arranged(permits)[i] == (if i < |files| then files[i] else dirs[i - |files|]);
    assert Arranged(permits)[j] == (if j < |files| then files[j] else dirs[j - |files|]);
    SelectKind(permits, i >= |files|, Arranged(permits)[i]);
    SelectKind(permits, j >= |files|, Arranged(permits)[j]);
  }

  lemma DistinctMultiplicity(ps: seq<Permit>, i: nat, j: nat)
    requires i < j < |ps| && ps[i] == ps[j]
    ensures multiset(ps)[ps[i]] >= 2
  {
    assert ps == ps[..i] + [ps[i]] + ps[i + 1..j] + [ps[j]] + ps[j + 1..];
  }

  lemma {:induction false} UniqueMultiplicity(ps: seq<Permit>, p: Permit)
    requires forall i, j :: 0 <= i < j < |ps| ==> ps[i] != ps[j]
    ensures multiset(ps)[p] <= 1
  {
    if ps != [] {
      var n := |ps| - 1;
      UniqueMultiplicity(ps[..n], p);
      assert ps == ps[..n] + [ps[n]];
      assert ps[n] !in ps[..n];
      assert ps[n] !in multiset(ps[..n]);
    }
  }

  lemma ArrangedIsPlannable(permits: seq<Permit>)
    requires Plannable(permits)
    ensures Plannable(Arranged(permits))
  {
    hide Arranged, Canonical;
    var ps := Arranged(permits);
    ArrangedIsPermutation(permits);
    forall p | p in ps ensures p in permits {
      assert p in multiset(ps);
      assert p in multiset(permits);
    }
    forall i, j | 0 <= i < j < |ps| ensures !SameKey(ps[i], ps[j]) {
      if SameKey(ps[i], ps[j]) {
        assert ps[i] in permits && ps[j] in permits;
        assert ps[i] == ps[j];
        DistinctMultiplicity(ps, i, j);
        UniqueMultiplicity(permits, ps[i]);
      }
    }
  }

  /** Everything strictly below a planned directory is planned before it. */
  lemma DescendantsComeFirst(permits: seq<Permit>, j: nat, i: nat)
    requires Plannable(permits)
    requires j < |Arranged(permits)| && i < |Arranged(permits)|
    requires Arranged(permits)[i].kind.OfDirectory?
    requires StrictlyBelow(Arranged(permits), j, i)
    ensures j < i
  {
    hide Sort, Select, Split, Components, Insert;
    var ps := Arranged(permits);
    ArrangedIsPlannable(permits);
    assert ps[i] in ps && ps[j] in ps;
    CanonicalComponents(ps[i].relPath);
    CanonicalComponents(ps[j].relPath);
    assert Depth(ps[j]) > Depth(ps[i]);
    if i < j {
      ArrangedOrder(permits, i, j);
    }
  }

  /**
   The dependencies of a planned directory are exactly the operations on its planned strict
   descendants in the same target, and all of them come earlier in the list.
   */
  lemma DependenciesAreDescendants(permits: seq<Permit>, i: nat, id: nat)
    requires Plannable(permits)
    requires i < |Arranged(permits)| && Arranged(permits)[i].kind.OfDirectory?
    ensures
      var ps := Arranged(permits);
      id in OperationsOf(ps)[i].deps <==> 1 <= id <= |ps| && StrictlyBelow(ps, id - 1, i)
    ensures id in OperationsOf(Arranged(permits))[i].deps ==> id < OperationsOf(Arranged(permits))[i].id
  {
    hide Arranged, Components, Canonical;
    var ps := Arranged(permits);
    ArrangedIsPlannable(permits);
    DependencyIds(ps, i, i);
    if 1 <= id <= |ps| {
      var j := id - 1;
      assert ps[i] in ps && ps[j] in ps;
      PrefixTestExact(ps[i].relPath, ps[j].relPath);
      if StrictlyBelow(ps, j, i) {
        DescendantsComeFirst(permits, j, i);
        assert IsDependency(ps, j, i);
      }
    }
  }

  // ------------------------------------------------------------------ Independence of the input order

  lemma SelectPermutes(a: seq<Permit>, b: seq<Permit>, dirs: bool)
    requires multiset(a) == multiset(b)
    ensures multiset(Select(a, dirs)) == multiset(Select(b, dirs))
  {
    forall p: Permit ensures multiset(Select(a, dirs))[p] == multiset(Select(b, dirs))[p] {
      SelectCounts(a, dirs, p);
      SelectCounts(b, dirs, p);
    }
  }

  lemma SortedSelectionsAgree(a: seq<Permit>, b: seq<Permit>, dirs: bool)
    requires multiset(a) == multiset(b) && KeysAgree(multiset(a))
    ensures Sort(Select(a, dirs)) == Sort(Select(b, dirs))
  {
    hide Sort, Select, PermitLE;
    SelectPermutes(a, b, dirs);
    SortIsCorrect(Select(a, dirs));
    SortIsCorrect(Select(b, dirs));
    var sorted := Sort(Select(a, dirs));
    forall p, q | p in sorted && q in sorted && SameKey(p, q) ensures p == q {
      SelectKind(a, dirs, p);
      SelectKind(a, dirs, q);
      assert p in multiset(sorted) && q in multiset(sorted);
      SelectCounts(a, dirs, p);
      SelectCounts(a, dirs, q);
      assert p in multiset(a) && q in multiset(a);
    }
    OrderedIsUnique(sorted, Sort(Select(b, dirs)));
  }

  /** Any permutation of the same permits yields the identical plan. */
  lemma PlanIgnoresPermitOrder(jobId: nat, catalogGen: nat, configGen: nat, a: seq<Permit>, b: seq<Permit>)
    requires multiset(a) == multiset(b) && KeysAgree(multiset(a))
    ensures PlanFor(jobId, catalogGen, configGen, a) == PlanFor(jobId, catalogGen, configGen, b)
  {
    SortedSelectionsAgree(a, b, false);
    SortedSelectionsAgree(a, b, true);
  }

  /** Where a stable insertion puts a permit: behind the last one that is not greater. */
  function Slot(p: Permit, ps: seq<Permit>): (k: nat)
    ensures k <= |ps|
  {
    if ps != [] && PermitLE(ps[0], p) then 1 + Slot(p, ps[1..]) else 0
  }

  lemma {:induction false} InsertAtSlot(p: Permit, ps: seq<Permit>)
    ensures Insert(p, ps) == ps[..Slot(p, ps)] + [p] + ps[Slot(p, ps)..]
  {
    if ps != [] && PermitLE(ps[0], p) {
      InsertAtSlot(p, ps[1..]);
      var k := Slot(p, ps[1..]);
      assert ps[..k + 1] == [ps[0]] + ps[1..][..k];
      assert ps[k + 1..] == ps[1..][k..];
    }
  }

  /** Two permits that tie keep their input order. */
  lemma {:induction false} TiesKeepInputOrder(p: Permit, q: Permit, ps: seq<Permit>)
    requires SameKey(p, q)
    ensures
      var k := Slot(p, ps);
      Insert(q, Insert(p, ps)) == ps[..k] + [p, q] + ps[k..]
    decreases |ps|
  {
    StringLETotal(p.relPath, p.relPath);
    var k := Slot(p, ps);
    if ps != [] && PermitLE(ps[0], p) {
      TiesKeepInputOrder(p, q, ps[1..]);
      var rest := Insert(p, ps[1..]);
      assert Insert(p, ps) == [ps[0]] + rest;
      assert ([ps[0]] + rest)[1..] == rest;
      assert ps[..k] == [ps[0]] + ps[1..][..k - 1];
      assert ps[k..] == ps[1..][k - 1..];
    } else {
      assert Insert(p, ps) == [p] + ps;
      assert ([p] + ps)[1..] == ps;
      assert Insert(q, ps) == [q] + ps;
    }
  }

  lemma SortOfTies(p: Permit, q: Permit, rest: seq<Permit>)
    requires SameKey(p, q)
    ensures Sort(rest + [p, q]) != Sort(rest + [q, p]) || p == q
    ensures |Sort(rest + [p, q])| == |Sort(rest + [q, p])|
  {
    var sorted := Sort(rest);
    assert (rest + [p, q])[..|rest| + 1] == rest + [p] && (rest + [p])[..|rest|] == rest;
    assert (rest + [q, p])[..|rest| + 1] == rest + [q] && (rest + [q])[..|rest|] == rest;
    TiesKeepInputOrder(p, q, sorted);
    TiesKeepInputOrder(q, p, sorted);
    SlotOfTies(p, q, sorted);
    assert Sort(rest + [p, q]) == Insert(q, Sort(rest + [p])) == Insert(q, Insert(p, sorted));
    assert Sort(rest + [q, p]) == Insert(p, Sort(rest + [q])) == Insert(p, Insert(q, sorted));
    var k := Slot(p, sorted);
    assert Sort(rest + [p, q]) == sorted[..k] + [p, q] + sorted[k..];
    assert Sort(rest + [q, p]) == sorted[..k] + [q, p] + sorted[k..];
    assert (sorted[..k] + [p, q] + sorted[k..])[k] == p;
    assert (sorted[..k] + [q, p] + sorted[k..])[k] == q;
  }

  lemma {:induction false} SlotOfTies(p: Permit, q: Permit, ps: seq<Permit>)
    requires SameKey(p, q)
    ensures Slot(p, ps) == Slot(q, ps)
    decreases |ps|
  {
    if ps != [] {
      SlotOfTies(p, q, ps[1..]);
    }
  }

  lemma SelectLastTwo(rest: seq<Permit>, p: Permit, q: Permit, dirs: bool)
    ensures Select(rest + [p, q], dirs)
      == Select(rest, dirs) + (if p.kind.OfDirectory? == dirs then [p] else [])
         + (if q.kind.OfDirectory? == dirs then [q] else [])
  {
    assert (rest + [p, q])[..|rest| + 1] == rest + [p] && (rest + [p])[..|rest|] == rest;
  }

  /** Different permits of the same kind for the same path: their input order shows in the plan. */
  lemma ConflictingPermitsShow(rest: seq<Permit>, p: Permit, q: Permit)
    requires SameKey(p, q) && p.kind.OfDirectory? == q.kind.OfDirectory? && p != q
    ensures OperationsOf(Arranged(rest + [p, q])) != OperationsOf(Arranged(rest + [q, p]))
  {
    hide Sort, Select, OperationsOf, PermitLE;
    var a, b := Arranged(rest + [p, q]), Arranged(rest + [q, p]);
    ArrangementsDiffer(rest, p, q);
    var i :| 0 <= i < |a| && a[i] != b[i];
    OperationShowsPermit(a, b, i);
  }

  lemma ArrangementsDiffer(rest: seq<Permit>, p: Permit, q: Permit)
    requires SameKey(p, q) && p.kind.OfDirectory? == q.kind.OfDirectory? && p != q
    ensures |Arranged(rest + [p, q])| == |Arranged(rest + [q, p])|
    ensures Arranged(rest + [p, q]) != Arranged(rest + [q, p])
  {
    hide Sort, Select, PermitLE;
    var dirs := p.kind.OfDirectory?;
    var chosen := Select(rest, dirs);
    SelectLastTwo(rest, p, q, dirs);
    SelectLastTwo(rest, q, p, dirs);
    SelectLastTwo(rest, p, q, !dirs);
    SelectLastTwo(rest, q, p, !dirs);
    assert Select(rest + [p, q], dirs) == chosen + [p, q];
    assert Select(rest + [q, p], dirs) == chosen + [q, p];
    assert Select(rest + [p, q], !dirs) == Select(rest, !dirs) == Select(rest + [q, p], !dirs);
    SortOfTies(p, q, chosen);
    var x, y, z := Sort(chosen + [p, q]), Sort(chosen + [q, p]), Sort(Select(rest, !dirs));
    ConcatDiffers(x, y, z);
  }

  lemma ConcatDiffers(x: seq<Permit>, y: seq<Permit>, z: seq<Permit>)
    requires |x| == |y| && x != y
    ensures x + z != y + z && z + x != z + y
  {
    assert (x + z)[..|x|] == x && (y + z)[..|y|] == y;
    assert (z + x)[|z|..] == x && (z + y)[|z|..] == y;
  }

  lemma OperationShowsPermit(a: seq<Permit>, b: seq<Permit>, i: nat)
    requires i < |a| == |b| && a[i] != b[i]
    ensures OperationAt(a, i).op != OperationAt(b, i).op
    ensures OperationsOf(a) != OperationsOf(b)
  {
    assert OperationsOf(a)[i] == OperationAt(a, i) && OperationsOf(b)[i] == OperationAt(b, i);
  }

  /** The plan is independent of the order of its permits exactly when no two of them conflict. */
  lemma OrderIndependenceIsExact(jobId: nat, catalogGen: nat, configGen: nat, permits: seq<Permit>)
    ensures KeysAgree(multiset(permits)) <==>
      forall other: seq<Permit> :: multiset(other) == multiset(permits) ==>
        PlanFor(jobId, catalogGen, configGen, other) == PlanFor(jobId, catalogGen, configGen, permits)
  {
    hide PlanFor, Arranged, OperationsOf;
    if KeysAgree(multiset(permits)) {
      forall other: seq<Permit> | multiset(other) == multiset(permits)
        ensures PlanFor(jobId, catalogGen, configGen, other) == PlanFor(jobId, catalogGen, configGen, permits)
      {
        PlanIgnoresPermitOrder(jobId, catalogGen, configGen, other, permits);
      }
    } else {
      var a, b := ConflictBreaksIndependence(jobId, catalogGen, configGen, permits);
    }
  }

  lemma ConflictBreaksIndependence(jobId: nat, catalogGen: nat, configGen: nat, permits: seq<Permit>)
    returns (a: seq<Permit>, b: seq<Permit>)
    requires !KeysAgree(multiset(permits))
    ensures multiset(a) == multiset(permits) && multiset(b) == multiset(permits)
    ensures PlanFor(jobId, catalogGen, configGen, a) != PlanFor(jobId, catalogGen, configGen, b)
  {
    hide PlanFor, Arranged, OperationsOf;
    var p, q :| p in multiset(permits) && q in multiset(permits) && SameKey(p, q)
      && p.kind.OfDirectory? == q.kind.OfDirectory? && p != q;
    var rest := WithoutTwo(permits, p, q);
    a, b := rest + [p, q], rest + [q, p];
    assert multiset(a) == multiset(rest) + multiset{p, q} == multiset(b);
    ConflictingPermitsShow(rest, p, q);
    PlansDiffer(jobId, catalogGen, configGen, a, b);
  }

  lemma PlansDiffer(jobId: nat, catalogGen: nat, configGen: nat, a: seq<Permit>, b: seq<Permit>)
    requires OperationsOf(Arranged(a)) != OperationsOf(Arranged(b))
    ensures PlanFor(jobId, catalogGen, configGen, a) != PlanFor(jobId, catalogGen, configGen, b)
  {
    hide OperationsOf, Arranged;
  }

  lemma WithoutOne(permits: seq<Permit>, p: Permit) returns (rest: seq<Permit>)
    requires p in permits
    ensures multiset(permits) == multiset(rest) + multiset{p}
  {
    var i :| 0 <= i < |permits| && permits[i] == p;
    rest := permits[..i] + permits[i + 1..];
    assert permits == permits[..i] + [p] + permits[i + 1..];
  }

  lemma WithoutTwo(permits: seq<Permit>, p: Permit, q: Permit) returns (rest: seq<Permit>)
    requires p in permits && q in permits && p != q
    ensures multiset(permits) == multiset(rest) + multiset{p, q}
  {
    var once := WithoutOne(permits, p);
    assert q in multiset(permits);
    assert q in multiset(once);
    rest := WithoutOne(once, q);
  }

  // ------------------------------------------------------------------ Building and validating

  /** Within the budget, no identifier twice, and every dependency defined before it is used. */
  ghost predicate ValidPlan(operations: seq<Operation>) {
    && |operations| <= MAX_OPERATIONS
    && (forall i, j :: 0 <= i < j < |operations| ==> operations[i].id != operations[j].id)
    && (forall i, d :: 0 <= i < |operations| && d in operations[i].deps ==> DefinedUpTo(operations, i, d))
  }

  /** Some operation up to and including the `i`-th has identifier `d`. */
  ghost predicate DefinedUpTo(operations: seq<Operation>, i: nat, d: nat) {
    exists k :: 0 <= k <= i && k < |operations| && operations[k].id == d
  }

  /** The validator accepts exactly the valid plans. An operation may name itself: it is already defined then. */
  method ValidatePlan(operations: seq<Operation>) returns (ok: bool)
    ensures ok <==> ValidPlan(operations)
  {
    if |operations| > MAX_OPERATIONS {
      return false;
    }
    var seen: set<nat> := {};
    for i := 0 to |operations|
      invariant forall id :: id in seen <==> exists k :: 0 <= k < i && operations[k].id == id
      invariant forall a, b :: 0 <= a < b < i ==> operations[a].id != operations[b].id
      invariant forall k, d :: 0 <= k < i && d in operations[k].deps ==> DefinedUpTo(operations, k, d)
    {
      var op := operations[i];
      if op.id in seen {
        return false;
      }
      seen := seen + {op.id};
      for j := 0 to |op.deps|
        invariant forall k :: 0 <= k < j ==> DefinedUpTo(operations, i, op.deps[k])
      {
        if op.deps[j] !in seen {
          assert !DefinedUpTo(operations, i, op.deps[j]);
          assert op.deps[j] in operations[i].deps;
          return false;
        }
      }
    }
    return true;
  }

  /** A plan within the budget is always valid. */
  lemma BuiltPlanIsValid(ps: seq<Permit>)
    requires |ps| <= MAX_OPERATIONS
    ensures ValidPlan(OperationsOf(ps))
  {
    var operations := OperationsOf(ps);
    forall i, d | 0 <= i < |operations| && d in operations[i].deps ensures DefinedUpTo(operations, i, d) {
      DependencyIds(ps, i, i);
      assert operations[d - 1].id == d;
    }
  }

  /** Adds an identifier to an ascending list: one step of sort-and-deduplicate. */
  function AddId(id: nat, ids: seq<nat>): seq<nat> {
    if ids == [] || id < ids[0] then [id] + ids
    else if id == ids[0] then ids
    else [ids[0]] + AddId(id, ids[1..])
  }

  lemma {:induction false} AddIdKeepsAscending(id: nat, ids: seq<nat>)
    requires Ascending(ids)
    ensures Ascending(AddId(id, ids))
    ensures forall x :: x in AddId(id, ids) <==> x == id || x in ids
  {
    if ids != [] && id > ids[0] {
      AddIdKeepsAscending(id, ids[1..]);
      assert ids == [ids[0]] + ids[1..];
      var rest := AddId(id, ids[1..]);
      forall k | 0 <= k < |rest| ensures ids[0] < rest[k] {
        assert rest[k] in rest;
      }
    }
  }

  lemma {:induction false} AscendingIsUnique(a: seq<nat>, b: seq<nat>)
    requires Ascending(a) && Ascending(b)
    requires forall x :: x in a <==> x in b
    ensures a == b
  {
    assert b != [] ==> b[0] in a;
    if a != [] {
      assert a[0] in b;
      assert b[0] in a;
      assert a == [a[0]] + a[1..] && b == [b[0]] + b[1..];
      assert a[0] == b[0];
      forall x ensures x in a[1..] <==> x in b[1..] {
        assert x in a <==> x == a[0] || x in a[1..];
        assert x in b <==> x == b[0] || x in b[1..];
      }
      AscendingIsUnique(a[1..], b[1..]);
    }
  }

  function KeyOf(p: Permit): (TargetId, string) {
    (p.target, p.relPath)
  }

  /** An index entry names its latest operation among the first `n`. */
  ghost predicate NamesLatest(ps: seq<Permit>, n: nat, key: (TargetId, string), id: nat)
    requires n <= |ps|
  {
    1 <= id <= n && key == KeyOf(ps[id - 1]) && Current(ps, id - 1, n)
  }

  /** The path index after the first `n` operations: every key with its latest operation. */
  ghost predicate Indexes(index: map<(TargetId, string), nat>, ps: seq<Permit>, n: nat)
    requires n <= |ps|
  {
    && (forall key :: key in index ==> NamesLatest(ps, n, key, index[key]))
    && (forall j :: 0 <= j < n ==> KeyOf(ps[j]) in index)
  }

  lemma LatestStep(ps: seq<Permit>, n: nat, key: (TargetId, string), id: nat)
    requires n < |ps|
    ensures NamesLatest(ps, n, key, id) && key != KeyOf(ps[n]) ==> NamesLatest(ps, n + 1, key, id)
    ensures NamesLatest(ps, n + 1, KeyOf(ps[n]), n + 1)
  {
  }

  lemma IndexStep(index: map<(TargetId, string), nat>, ps: seq<Permit>, n: nat)
    requires n < |ps| && Indexes(index, ps, n)
    ensures Indexes(index[KeyOf(ps[n]) := n + 1], ps, n + 1)
  {
    hide NamesLatest, KeyOf;
    var index' := index[KeyOf(ps[n]) := n + 1];
    forall key | key in index' ensures NamesLatest(ps, n + 1, key, index'[key]) {
      LatestStep(ps, n, key, index'[key]);
    }
  }

  /** An index entry that the prefix test selects for operation `i`. */
  predicate Selected(key: (TargetId, string), ps: seq<Permit>, i: nat)
    requires i < |ps|
  {
    key.0 == ps[i].target && ps[i].relPath + "/" <= key.1
  }

  lemma SelectedAreDependencies(index: map<(TargetId, string), nat>, ps: seq<Permit>, i: nat, id: nat)
    requires i < |ps| && Indexes(index, ps, i)
    ensures (exists key :: key in index && index[key] == id && Selected(key, ps, i))
      <==> id in DependenciesUpTo(ps, i, i)
  {
    DependencyIds(ps, i, i);
    if id in DependenciesUpTo(ps, i, i) {
      var key := (ps[id - 1].target, ps[id - 1].relPath);
      assert key in index;
      assert SameKey(ps[id - 1], ps[index[key] - 1]);
      assert index[key] == id;
      assert Selected(key, ps, i);
    }
  }

  /** Collects the dependencies of operation `i` from the index, visiting its entries in any order. */
  method CollectDependencies(index: map<(TargetId, string), nat>, ps: seq<Permit>, i: nat) returns (deps: seq<nat>)
    requires i < |ps| && Indexes(index, ps, i)
    ensures deps == DependenciesUpTo(ps, i, i)
  {
    hide Indexes, DependenciesUpTo, Selected;
    deps := [];
    var rest := index.Keys;
    while rest != {}
      invariant rest <= index.Keys
      invariant Ascending(deps)
      invariant forall id :: id in deps <==>
        exists key :: key in index && key !in rest && index[key] == id && Selected(key, ps, i)
      decreases rest
    {
      var key :| key in rest;
      if Selected(key, ps, i) {
        AddIdKeepsAscending(index[key], deps);
        deps := AddId(index[key], deps);
      }
      rest := rest - {key};
    }
    assert Ascending(DependenciesUpTo(ps, i, i)) by { DependencyIds(ps, i, i); }
    forall id ensures id in deps <==> id in DependenciesUpTo(ps, i, i) {
      SelectedAreDependencies(index, ps, i, id);
    }
    AscendingIsUnique(deps, DependenciesUpTo(ps, i, i));
  }

  method Partition(permits: seq<Permit>) returns (files: seq<Permit>, dirs: seq<Permit>)
    ensures files == Select(permits, false) && dirs == Select(permits, true)
  {
    files, dirs := [], [];
    for k := 0 to |permits|
      invariant files == Select(permits[..k], false) && dirs == Select(permits[..k], true)
    {
      assert permits[..k + 1][..k] == permits[..k];
      if permits[k].kind.OfDirectory? {
        dirs := dirs + [permits[k]];
      } else {
        files := files + [permits[k]];
      }
    }
    assert permits[..|permits|] == permits;
  }

  /** Numbers the arranged permits and resolves the dependencies through the growing path index. */
  method LayOut(ps: seq<Permit>) returns (operations: seq<Operation>, total: nat)
    ensures operations == OperationsOf(ps)
    ensures total == FileBytes(ps)
  {
    hide Indexes, DependenciesUpTo;
    operations, total := [], 0;
    var index: map<(TargetId, string), nat> := map[];
    assert Indexes(index, ps, 0) by { EmptyIndex(ps); }
    var i := 0;
    while i < |ps|
      invariant 0 <= i <= |ps|
      invariant |operations| == i
      invariant forall k :: 0 <= k < i ==> operations[k] == OperationAt(ps, k)
      invariant total == FileBytes(ps[..i])
      invariant Indexes(index, ps, i)
    {
      var p := ps[i];
      assert ps[..i + 1][..i] == ps[..i];
      if p.kind.OfDirectory? {
        var deps := CollectDependencies(index, ps, i);
        operations := operations + [Operation(i + 1, DeleteDirEmpty(p.target, p.relPath, p.identity), deps, 0)];
      } else {
        total := SaturatingAdd(total, p.kind.size);
        operations := operations + [Operation(i + 1, DeleteFile(p.target, p.relPath, p.identity, p.kind.size), [],
          p.kind.size)];
      }
      IndexStep(index, ps, i);
      index := index[KeyOf(p) := i + 1];
      i := i + 1;
    }
    assert ps[..i] == ps;
  }

  lemma EmptyIndex(ps: seq<Permit>)
    ensures Indexes(map[], ps, 0)
  {
  }

  // ------------------------------------------------------------------ What a plan holds

  /** The permit that an operation of a built plan carries out. */
  function PermitBehind(op: Operation): Option<Permit> {
    match op.op
    case DeleteFile(target, relPath, expected, size) => Some(Permit(target, relPath, expected, OfFile(size)))
    case DeleteDirEmpty(target, relPath, expected) => Some(Permit(target, relPath, expected, OfDirectory))
    case _ => None
  }

  /** The operations, read back as permits. */
  ghost predicate CarriesOut(operations: seq<Operation>, ps: seq<Permit>) {
    |operations| == |ps| && forall i :: 0 <= i < |ps| ==> PermitBehind(operations[i]) == Some(ps[i])
  }

  function SizeOf(p: Permit): nat {
    if p.kind.OfFile? then p.kind.size else 0
  }

  function TotalSize(ps: seq<Permit>): nat {
    if ps == [] then 0 else SizeOf(ps[0]) + TotalSize(ps[1..])
  }

  /** Files first, and within files and within directories the canonical order. */
  ghost predicate InPlanOrder(ps: seq<Permit>) {
    forall i, j :: 0 <= i < j < |ps| ==>
      && (ps[i].kind.OfDirectory? ==> ps[j].kind.OfDirectory?)
      && (ps[i].kind.OfDirectory? == ps[j].kind.OfDirectory? ==> PermitLE(ps[i], ps[j]))
  }

  /** The list of the permits, in plan order, that the operations carry out. */
  ghost predicate Lists(operations: seq<Operation>, permits: seq<Permit>, ps: seq<Permit>) {
    multiset(ps) == multiset(permits) && InPlanOrder(ps) && CarriesOut(operations, ps)
  }

  /**
   What a plan for these permits holds: its own header; one operation per permit, numbered from one in plan
   order, with the permit's size as its estimate; and the sum of all sizes.
   */
  ghost predicate Fulfils(plan: Plan, jobId: nat, catalogGen: nat, configGen: nat, permits: seq<Permit>) {
    && plan.jobId == jobId && plan.catalogGen == catalogGen && plan.configGen == configGen
    && (exists ps :: Lists(plan.operations, permits, ps))
    && (forall i :: 0 <= i < |plan.operations| ==>
      && plan.operations[i].id == i + 1
      && PermitBehind(plan.operations[i]).Some?
      && plan.operations[i].estimate == SizeOf(PermitBehind(plan.operations[i]).value))
    && plan.total == if TotalSize(permits) > U64_MAX then U64_MAX else TotalSize(permits)
  }

  lemma {:induction false} TotalSizeConcat(a: seq<Permit>, b: seq<Permit>)
    ensures TotalSize(a + b) == TotalSize(a) + TotalSize(b)
  {
    if a == [] {
      assert a + b == b;
    } else {
      assert (a + b)[1..] == a[1..] + b;
      TotalSizeConcat(a[1..], b);
    }
  }

  /** Taking one permit out of a list takes out its size. */
  lemma TakeOut(ps: seq<Permit>, k: nat)
    requires k < |ps|
    ensures
      var rest := ps[..k] + ps[k + 1..];
      TotalSize(ps) == SizeOf(ps[k]) + TotalSize(rest) && multiset(ps) == multiset(rest) + multiset{ps[k]}
  {
    hide SizeOf, TotalSize;
    assert ps == ps[..k] + ([ps[k]] + ps[k + 1..]);
    TotalSizeConcat(ps[..k], ps[k + 1..]);
    TotalSizeConcat(ps[..k], [ps[k]] + ps[k + 1..]);
    TotalSizeConcat([ps[k]], ps[k + 1..]);
    OneSize(ps[k]);
  }

  lemma OneSize(p: Permit)
    ensures TotalSize([p]) == SizeOf(p)
  {
    assert [p][1..] == [];
  }

  lemma SameRest(a: multiset<Permit>, b: multiset<Permit>, p: Permit)
    requires a + multiset{p} == b + multiset{p}
    ensures a == b
  {
    assert a == (a + multiset{p}) - multiset{p};
    assert b == (b + multiset{p}) - multiset{p};
  }

  lemma FindsIt(b: seq<Permit>, p: Permit) returns (k: nat)
    requires p in multiset(b)
    ensures k < |b| && b[k] == p
  {
    k :| 0 <= k < |b| && b[k] == p;
  }

  lemma {:induction false} TotalSizePermutes(a: seq<Permit>, b: seq<Permit>)
    requires multiset(a) == multiset(b)
    ensures TotalSize(a) == TotalSize(b)
    decreases |a|
  {
    hide SizeOf, TotalSize;
    if a == [] {
      assert |b| == |multiset(b)| == 0;
    } else {
      assert a[0] in multiset(a);
      var k := FindsIt(b, a[0]);
      var x, y := a[..0] + a[1..], b[..k] + b[k + 1..];
      TakeOut(a, 0);
      TakeOut(b, k);
      SameRest(multiset(x), multiset(y), a[0]);
      TotalSizePermutes(x, y);
    }
  }

  lemma {:induction false} FileBytesIsTotal(ps: seq<Permit>)
    ensures FileBytes(ps) == if TotalSize(ps) > U64_MAX then U64_MAX else TotalSize(ps)
  {
    if ps != [] {
      var n := |ps| - 1;
      FileBytesIsTotal(ps[..n]);
      assert ps == ps[..n] + [ps[n]] && [ps[n]][1..] == [];
      TotalSizeConcat(ps[..n], [ps[n]]);
    }
  }

  /** A built plan holds what its permits ask for. */
  lemma BuiltPlanFulfils(jobId: nat, catalogGen: nat, configGen: nat, permits: seq<Permit>)
    ensures Fulfils(PlanFor(jobId, catalogGen, configGen, permits), jobId, catalogGen, configGen, permits)
  {
    hide Arranged, FileBytes, TotalSize, DependenciesUpTo, PermitLE;
    var ps := Arranged(permits);
    ArrangedIsPermutation(permits);
    forall i, j | 0 <= i < j < |ps|
      ensures ps[i].kind.OfDirectory? ==> ps[j].kind.OfDirectory?
      ensures ps[i].kind.OfDirectory? == ps[j].kind.OfDirectory? ==> PermitLE(ps[i], ps[j])
    {
      ArrangedOrder(permits, i, j);
    }
    assert Lists(OperationsOf(ps), permits, ps);
    FileBytesIsTotal(ps);
    TotalSizePermutes(ps, permits);
  }

  /** Builds the plan. The only failure is the budget: the final validation never rejects a built plan. */
  method BuildPlan(jobId: nat, catalogGen: nat, configGen: nat, permits: seq<Permit>) returns (r: Option<Plan>)
    ensures r.Some? <==> |permits| <= 10_000
    ensures r.Some? ==> r.value == PlanFor(jobId, catalogGen, configGen, permits)
    ensures r.Some? ==> Fulfils(r.value, jobId, catalogGen, configGen, permits)
  {
    hide Sort, Select, OperationsOf, FileBytes, ValidPlan, Fulfils;
    BuiltPlanFulfils(jobId, catalogGen, configGen, permits);
    if |permits| > MAX_OPERATIONS {
      return None;
    }
    var files, dirs := Partition(permits);
    var ps := Sort(files) + Sort(dirs);
    ArrangedIsPermutation(permits);
    var operations, total := LayOut(ps);
    BuiltPlanIsValid(ps);
    var ok := ValidatePlan(operations);
    if !ok {
      return None;
    }
    r := Some(Plan(jobId, catalogGen, configGen, operations, total));
  }
}
