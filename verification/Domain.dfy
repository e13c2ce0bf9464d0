/** Value types shared by the planner, the executor, the store and the scanner. */
module Domain {

  datatype Option<+T> = None | Some(value: T)

  /** The largest value of the 64-bit counters that hold byte counts. */
  const U64_MAX: nat := 0xFFFF_FFFF_FFFF_FFFF

  /** The hard bound that the checked byte-count constructor asserts: 10 GiB. */
  const MAX_SAFE_BYTES: nat := 10 * 1024 * 1024 * 1024

  /** 64-bit saturating addition. */
  function SaturatingAdd(a: nat, b: nat): nat {
    if a + b > U64_MAX then U64_MAX else a + b
  }

  type TargetId = string
  type Name = string

  /** Device and inode: what a directory handle really denotes. */
  datatype Identity = Identity(dev: nat, ino: nat)

  datatype Candidate = Candidate(
    id: nat, target: TargetId, relPath: string, identity: Identity, size: nat, isDir: bool, isSymlink: bool)

  datatype OpType =
    | DeleteFile(target: TargetId, relPath: string, expected: Identity, size: nat)
    | DeleteDirEmpty(target: TargetId, relPath: string, expected: Identity)
    | PruneDirRecursive(target: TargetId, relPath: string, expected: Identity)
    | TrimFilesystem(mount: string)
    | VacuumDatabase(database: string)

  datatype Operation = Operation(id: nat, op: OpType, deps: seq<nat>, estimate: nat)

  datatype Plan = Plan(jobId: nat, catalogGen: nat, configGen: nat, operations: seq<Operation>, total: nat)

  datatype Capability =
    | CanDeleteFile(target: TargetId, relPath: string)
    | CanDeleteDirectory(target: TargetId, relPath: string)
    | CanTrim(mount: string)
    | CanVacuum(database: string)

  datatype Grant = Grant(capabilities: seq<Capability>, catalogGen: nat, configGen: nat, expiresAt: nat)

  datatype SafetyTier = StandardCache | RequiresColdApp | ReadOnlyInspection | ProtectedSystem

  /** `base` lists the components of the absolute root path; the first one is "/". */
  datatype Target = Target(id: TargetId, base: seq<string>, dev: nat, tier: SafetyTier, catalogGen: nat)

  datatype Catalog = Catalog(generation: nat, targets: map<TargetId, Target>)

  /** Targets are registered under their own identifier. */
  ghost predicate CatalogOk(c: Catalog) {
    forall t :: t in c.targets ==> c.targets[t].id == t
  }

  datatype Mutation = RemoveFile | RemoveEmptyDir | PruneRecursive

  datatype IntentState = Committed | Mutating | VerifiedSuccess | VerifiedFailed | ResolvedUnknown

  /** A row of the intent table. */
  datatype Intent = Intent(
    jobId: nat, attempt: nat, op: nat, target: TargetId, relPath: string, expected: Identity, bytes: nat,
    mutation: Mutation, state: IntentState, catalogGen: nat, configGen: nat)

  datatype Status = Success | Failed | VerificationFailed | Skipped | Preempted

  datatype OpResult = OpResult(id: nat, status: Status, reclaimed: nat)
}
