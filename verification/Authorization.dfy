/** Capability grants and the safety gate at the mutation boundary. */
module Authorization {
  import opened Domain
  import opened Paths

  // ------------------------------------------------------------------ Grants

  function CapabilityFor(op: OpType): Capability {
    match op
    case DeleteFile(target, relPath, _, _) => CanDeleteFile(target, relPath)
    case DeleteDirEmpty(target, relPath, _) => CanDeleteDirectory(target, relPath)
    case PruneDirRecursive(target, relPath, _) => CanDeleteDirectory(target, relPath)
    case TrimFilesystem(mount) => CanTrim(mount)
    case VacuumDatabase(database) => CanVacuum(database)
  }

  /** Path values compare by components, not by spelling. */
  predicate SameCapability(a: Capability, b: Capability) {
    match (a, b)
    case (CanDeleteFile(t, p), CanDeleteFile(u, q)) => t == u && Components(p) == Components(q)
    case (CanDeleteDirectory(t, p), CanDeleteDirectory(u, q)) => t == u && Components(p) == Components(q)
    case (_, _) => a == b
  }

  predicate Granted(grant: Grant, op: OpType) {
    exists i :: 0 <= i < |grant.capabilities| && SameCapability(grant.capabilities[i], CapabilityFor(op))
  }

  /** The check that opens every execution: both generations and the expiry. */
  predicate IsAuthorized(plan: Plan, grant: Grant, now: nat, catalogGen: nat, configGen: nat) {
    && plan.configGen == configGen
    && grant.catalogGen == catalogGen
    && grant.configGen == configGen
    && now <= grant.expiresAt
    && plan.catalogGen == catalogGen
  }

  /**
   Issues a grant for a plan. A grant is issued exactly when both generations are current; it then
   covers every operation, covers nothing that the plan does not contain, and authorizes execution
   for exactly its lifetime.
   */
  method AuthorizePlan(plan: Plan, catalogGen: nat, configGen: nat, ttl: nat, now: nat) returns (r: Option<Grant>)
    requires now <= U64_MAX
    ensures r.Some? <==> plan.catalogGen == catalogGen && plan.configGen == configGen
    ensures r.Some? ==> forall i :: 0 <= i < |plan.operations| ==> Granted(r.value, plan.operations[i].op)
    ensures r.Some? ==> forall op :: Granted(r.value, op) <==>
      exists i :: 0 <= i < |plan.operations| && SameCapability(CapabilityFor(plan.operations[i].op), CapabilityFor(op))
    ensures r.Some? ==> forall later: nat, catalog: nat, config: nat ::
      IsAuthorized(plan, r.value, later, catalog, config) <==>
        catalog == catalogGen && config == configGen && later <= SaturatingAdd(now, ttl)
  {
    if plan.catalogGen != catalogGen || plan.configGen != configGen {
      return None;
    }
    var capabilities := [];
    for i := 0 to |plan.operations|
      invariant |capabilities| == i
      invariant forall k :: 0 <= k < i ==> capabilities[k] == CapabilityFor(plan.operations[k].op)
    {
      capabilities := capabilities + [CapabilityFor(plan.operations[i].op)];
    }
    var grant := Grant(capabilities, catalogGen, configGen, SaturatingAdd(now, ttl));
    forall i | 0 <= i < |plan.operations| ensures Granted(grant, plan.operations[i].op) {
      assert SameCapability(grant.capabilities[i], CapabilityFor(plan.operations[i].op));
    }
    r := Some(grant);
  }

  // ------------------------------------------------------------------ Safety gate

  /** The system roots below which nothing may be mutated. */
  const PROTECTED: seq<seq<string>> := [
    ["/", "system"], ["/", "vendor"], ["/", "product"], ["/", "system_ext"], ["/", "apex"],
    ["/", "data", "system"], ["/", "data", "misc"], ["/", "data", "bootchart"],
    ["/", "metadata"], ["/", "boot"], ["/", "etc"]]

  predicate MutationAllowed(tier: SafetyTier) {
    tier == StandardCache || tier == RequiresColdApp
  }

  predicate SafeRoot(base: seq<string>) {
    base != [] && base != ["/"] && forall i :: 0 <= i < |PROTECTED| ==> !(PROTECTED[i] <= base)
  }

  /** The last check before an intent is committed. */
  predicate AtBoundary(target: Target, relPath: string, expected: Identity, catalogGen: nat) {
    && MutationAllowed(target.tier)
    && SafeRoot(target.base)
    && relPath != ""
    && expected.dev == target.dev
    && target.catalogGen == catalogGen
  }
}
