/** The planner and the executor together: for every plan that the planner builds, deletion is bottom-up. */
module BottomUp {
  import opened Domain
  import opened Paths
  import opened Filesystem
  import opened Durability
  import opened Execution
  import opened CrashSafety
  import opened Ordering
  import opened Planning

  /** The job executes the plan built from these permits. */
  ghost predicate Executes(job: Job, permits: seq<Permit>) {
    job.plan.operations == OperationsOf(Arranged(permits))
  }

  /** Everything planned strictly below operation `k` was verified absent, on disk and in the journal, before it. */
  ghost predicate DescendantsVerified(job: Job, ps: seq<Permit>, s: State, k: nat)
    requires k < |ps|
  {
    forall j: nat :: j < |ps| && StrictlyBelow(ps, j, k) ==> j < k && Succeeded(job, s, j) && SuccessIsReal(job, s, j)
  }

  lemma DependenciesCoverDescendants(job: Job, permits: seq<Permit>, s: State, k: nat)
    requires Executes(job, permits) && Plannable(permits)
    requires k < |Arranged(permits)| && Arranged(permits)[k].kind.OfDirectory?
    requires DependenciesVerified(job, s, k)
    ensures DescendantsVerified(job, Arranged(permits), s, k)
  {
    hide Arranged, Gone, VerifiedRow, Components;
    var ps := Arranged(permits);
    forall j: nat | j < |ps| && StrictlyBelow(ps, j, k)
      ensures j < k && Succeeded(job, s, j) && SuccessIsReal(job, s, j)
    {
      DependenciesAreDescendants(permits, k, j + 1);
      assert j + 1 in job.plan.operations[k].deps;
      var found: nat :| Succeeded(job, s, found) && SuccessIsReal(job, s,
        found) && job.plan.operations[found].id == j + 1;
      assert found == j;
    }
  }

  /**
   At every crash point of every run of a built plan, a removed directory was removed by a planned
   directory operation, after everything planned strictly below it had been verified absent.
   */
  lemma DirectoriesLast(
    job: Job, permits: seq<Permit>, env: seq<OpEnv>, tree0: Tree, db0: Tables, n: nat, edge: Edge)
    requires |env| == |job.plan.operations| && CatalogOk(job.catalog)
    requires Executes(job, permits) && Plannable(permits)
    requires Removed(tree0, Run(job, env, Init(tree0, db0), true, n).tree, edge) && tree0[edge].kind == Directory
    ensures
      var s := Run(job, env, Init(tree0, db0), true, n);
      var ps := Arranged(permits);
      exists k: nat :: k < |ps| && Explained(job, tree0, s.db.intents, k, edge) && DescendantsVerified(job, ps, s, k)
  {
    hide Run, Arranged, DescendantsVerified, DependenciesVerified, Permitted, Journaled;
    var s := Run(job, env, Init(tree0, db0), true, n);
    DependenciesFirst(job, env, tree0, db0, n, edge);
    var k: nat :| Explained(job, tree0, s.db.intents, k, edge) && DependenciesVerified(job, s, k);
    DependenciesCoverDescendants(job, permits, s, k);
  }

  /** An entry for which there is no permit survives every run of the built plan, with all its ancestors. */
  lemma PermitlessPathSurvives(
    job: Job, permits: seq<Permit>, env: seq<OpEnv>, tree0: Tree, db0: Tables, n: nat,
    target: TargetId, path: seq<Name>, edge: Edge)
    requires |env| == |job.plan.operations| && CatalogOk(job.catalog)
    requires Executes(job, permits) && NoAliases(job, tree0)
    requires path != [] && DirAt(job, tree0, target, path[..|path| - 1]) == Ok(edge.dir)
    requires edge.name == path[|path| - 1] && edge in tree0
    requires forall p :: p in permits ==> p.target != target || Components(p.relPath) != path
    ensures
      var s := Run(job, env, Init(tree0, db0), true, n);
      && DirAt(job, s.tree, target, path[..|path| - 1]) == Ok(edge.dir)
      && edge in s.tree && s.tree[edge] == tree0[edge]
  {
    hide Run, Arranged, Components, NoAliases;
    var ps := Arranged(permits);
    ArrangedIsPermutation(permits);
    assert !Planned(job, target, path) by {
      forall k: nat | IsDeletionOp(job, k)
        ensures Del(job, k).target != target || Components(Del(job, k).relPath) != path
      {
        assert ps[k] in multiset(ps);
        assert ps[k] in permits;
      }
    }
    UnplannedPathSurvives(job, env, tree0, db0, n, target, path, edge);
  }
}
