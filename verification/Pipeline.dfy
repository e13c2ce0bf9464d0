/** From permits to an authorized plan: the two steps that stand between the policy and the executor. */
module Pipeline {
  import opened Domain
  import opened Paths
  import opened Planning
  import opened Authorization

  /** How long a grant of the pipeline lasts, in seconds. */
  const GRANT_SECONDS: nat := 300

  /** Some permit is for deleting a file, or an empty directory, at this path of this target. */
  ghost predicate PermitsDeletion(permits: seq<Permit>, target: TargetId, relPath: string, isDir: bool) {
    exists p ::
      && p in permits && p.target == target && Components(p.relPath) == Components(relPath)
      && p.kind.OfDirectory? == isDir
  }

  ghost predicate Permits(permits: seq<Permit>, op: OpType) {
    match op
    case DeleteFile(target, relPath, _, _) => PermitsDeletion(permits, target, relPath, false)
    case DeleteDirEmpty(target, relPath, _) => PermitsDeletion(permits, target, relPath, true)
    case PruneDirRecursive(target, relPath, _) => PermitsDeletion(permits, target, relPath, true)
    case _ => false
  }

  lemma CapabilitiesArePermits(plan: Plan, permits: seq<Permit>, ps: seq<Permit>, i: nat, op: OpType)
    requires Lists(plan.operations, permits, ps) && i < |plan.operations|
    requires SameCapability(CapabilityFor(plan.operations[i].op), CapabilityFor(op))
    ensures Permits(permits, op)
  {
    hide Components, InPlanOrder;
    assert ps[i] in multiset(ps);
  }

  lemma PermitsAreCapabilities(plan: Plan, permits: seq<Permit>, ps: seq<Permit>, op: OpType)
    requires Lists(plan.operations, permits, ps)
    requires Permits(permits, op)
    ensures exists i ::
      0 <= i < |plan.operations| && SameCapability(CapabilityFor(plan.operations[i].op), CapabilityFor(op))
  {
    hide Components, InPlanOrder;
    var target, relPath, isDir := op.target, op.relPath, !op.DeleteFile?;
    var p :| p in permits && p.target == target && Components(p.relPath) == Components(relPath)
      && p.kind.OfDirectory? == isDir;
    assert p in multiset(permits);
    var i :| 0 <= i < |ps| && ps[i] == p;
    assert PermitBehind(plan.operations[i]) == Some(p);
  }

  /** What the grant allows: exactly what was permitted. */
  ghost predicate GrantsExactly(grant: Grant, permits: seq<Permit>) {
    forall op :: Granted(grant, op) <==> Permits(permits, op)
  }

  /**
   A plan for the permits and its grant, both under the given generations. There is one exactly within the
   budget; the grant allows exactly what was permitted, and the executor accepts the plan exactly under
   these generations and for the lifetime of the grant.
   */
  method PlanAndAuthorize(jobId: nat, generation: nat, configGen: nat, permits: seq<Permit>, now: nat)
    returns (r: Option<(Plan, Grant)>)
    requires now <= U64_MAX
    ensures r.Some? <==> |permits| <= 10_000
    ensures r.Some? ==> Fulfils(r.value.0, jobId, generation, configGen, permits)
    ensures r.Some? ==> GrantsExactly(r.value.1, permits)
    ensures r.Some? ==> forall later: nat, catalog: nat, config: nat ::
      IsAuthorized(r.value.0, r.value.1, later, catalog, config) <==>
        catalog == generation && config == configGen && later <= SaturatingAdd(now, 300)
  {
    hide PlanFor, Lists, SameCapability, Permits, Granted;
    var plan := BuildPlan(jobId, generation, configGen, permits);
    if plan.None? {
      return None;
    }
    var grant := AuthorizePlan(plan.value, generation, configGen, GRANT_SECONDS, now);
    if grant.None? {
      return None;
    }
    ghost var ps :| Lists(plan.value.operations, permits, ps);
    GrantIsExact(plan.value, grant.value, permits, ps);
    r := Some((plan.value, grant.value));
  }

  lemma GrantIsExact(plan: Plan, grant: Grant, permits: seq<Permit>, ps: seq<Permit>)
    requires Lists(plan.operations, permits, ps)
    requires forall op :: Granted(grant, op) <==>
      exists i :: 0 <= i < |plan.operations| && SameCapability(CapabilityFor(plan.operations[i].op), CapabilityFor(op))
    ensures GrantsExactly(grant, permits)
  {
    hide Lists, SameCapability, Permits, Granted;
    forall op ensures Granted(grant, op) <==> Permits(permits, op) {
      if i :| 0 <= i < |plan.operations| && SameCapability(CapabilityFor(plan.operations[i].op), CapabilityFor(op)) {
        CapabilitiesArePermits(plan, permits, ps, i, op);
      } else if Permits(permits, op) {
        PermitsAreCapabilities(plan, permits, ps, op);
      }
    }
  }
}
