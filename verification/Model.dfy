/**
 The data of the checkpoint archive: identities, object keys, log entries, checkpoint manifests,
 the garbage-collection control object, plans and reports, and the objects of the store.

 Objects are kept as structured values (`Blob`) rather than byte strings: JSON and the segment codec
 are taken to be inverse pairs.  The digests (SHA-256 of an object, the hash of a log entry, of a plan
 and of a catalog) are arbitrary functions collected in `World`; a lemma that needs one of them to be
 free of collisions says so in its `requires`.
 */
module Model {

  datatype Option<+T> = None | Some(value: T)

  datatype Result<+T> = Ok(value: T) | Err(error: Error)

  /** The error classes of the archive; texts are not modelled. */
  datatype Error =
    | NotFound
    | AlreadyExists
    | Precondition
    | SizeMismatch
    | ChecksumMismatch
    | IdentityMismatch
    | UnsupportedFormat
    | InvalidCheckpoint
    | PublicationConflict(index: nat)
    | BaseRegression
    | BaseConflict
    | TargetConflict
    | GcBarrierActive
    | GcBarrierBusy(untilMs: nat)
    | GcPlanStale
    | InvalidGc

  const MAX_U64: nat := 0xFFFF_FFFF_FFFF_FFFF

  /** u64::saturating_add */
  function SatAdd(a: nat, b: nat): nat {
    if a + b <= MAX_U64 then a + b else MAX_U64
  }

  function Max(a: nat, b: nat): nat {
    if a < b then b else a
  }

  /** A 32-byte digest, as a number; `ZERO` is the all-zero digest. */
  type Hash = nat
  const ZERO: Hash := 0

  type Bytes = seq<nat>

  datatype Identity = Identity(cluster: string, epoch: nat, config: nat, generation: nat)

  /** The keys under a checkpoint namespace; module Keys gives their printed form. */
  datatype Key =
    | ManifestKey(id: Identity)
    | SegmentKey(id: Identity, start: nat, end: nat)
    | SnapshotKey(id: Identity, index: nat, hash: Hash, digest: Hash, fingerprint: Option<Hash>)

  // ---------------------------------------------------------------- log entries

  datatype Entry = Entry(cluster: string, epoch: nat, config: nat, index: nat,
                         kind: nat, payload: Bytes, prev: Hash, hash: Hash)

  /** What an entry's hash is computed from: every field but the hash itself. */
  datatype Preimage = Preimage(cluster: string, index: nat, epoch: nat, config: nat,
                               kind: nat, prev: Hash, payload: Bytes)

  function PreimageOf(e: Entry): Preimage {
    Preimage(e.cluster, e.index, e.epoch, e.config, e.kind, e.prev, e.payload)
  }

  // ---------------------------------------------------------------- checkpoint manifests

  datatype Tip = Tip(index: nat, hash: Hash)

  datatype ConfigState = ConfigState(config: nat, digest: Hash, stop: Option<Tip>)

  datatype Anchor = Anchor(format: nat, cluster: string, epoch: nat, config: nat, state: ConfigState,
                           generation: nat, compacted: Tip, digest: Hash, size: nat,
                           fingerprint: Option<Hash>)

  datatype SnapshotBase = SnapshotBase(anchor: Anchor, key: Key, digest: Hash, size: nat,
                                       fingerprint: Option<Hash>)

  datatype Base = Genesis | Snapshot(snapshot: SnapshotBase)

  datatype SegmentRecord = SegmentRecord(format: nat, start: nat, end: nat, firstPrev: Hash,
                                         lastHash: Hash, key: Key, sha: Hash, size: nat)

  datatype Manifest = Manifest(format: nat, identity: Identity, base: Base,
                               segments: seq<SegmentRecord>, tip: Tip)

  /** A manifest as read, with the version it was read at. */
  datatype Loaded = Loaded(manifest: Manifest, version: nat)

  // ---------------------------------------------------------------- garbage collection

  datatype LeaseKind = Publisher | Reader

  datatype Lease = Lease(id: nat, kind: LeaseKind, fence: nat, expires: nat)

  datatype Lifecycle = Active | Retired(planHash: Hash, retiredAt: nat)

  datatype CatalogEntry = CatalogEntry(identity: Identity, manifestKey: Key, registeredAt: nat,
                                       lifecycle: Lifecycle)

  datatype Phase = Draining | Deleting

  datatype Barrier = Barrier(operation: nat, planHash: Hash, fence: nat, root: Identity,
                             expires: nat, phase: Phase)

  datatype Control = Control(fence: nat, root: Option<Identity>, generations: seq<CatalogEntry>,
                             leases: seq<Lease>, active: Option<Barrier>)

  datatype Candidate = Candidate(generation: Identity, key: Key, version: nat, modified: nat)

  datatype Plan = Plan(operation: nat, fence: nat, catalogSha: Hash, observed: seq<CatalogEntry>,
                       root: Identity, rootSha: Hash, createdAt: nat, notBefore: nat,
                       swept: seq<Identity>, candidates: seq<Candidate>, hash: Hash)

  datatype Outcome = Deleted | AlreadyMissing

  datatype Evidence = Evidence(planHash: Hash, key: Key, version: nat, outcome: Outcome, observedAt: nat)

  datatype Report = Report(planHash: Hash, fence: nat, completedAt: nat, results: seq<Evidence>)

  // ---------------------------------------------------------------- the store

  datatype Blob =
    | ManifestBlob(manifest: Manifest)
    | SegmentBlob(entries: seq<Entry>)
    | SnapshotBlob(bytes: Bytes)

  datatype Obj = Obj(blob: Blob, version: nat, modified: nat)

  type Store = map<Key, Obj>

  /** The digest and size functions the archive takes from elsewhere. */
  datatype World = World(
    sha: Blob -> Hash,
    size: Blob -> nat,
    entryHash: Preimage -> Hash,
    planHash: Plan -> Hash,
    catalogHash: seq<CatalogEntry> -> Hash)

  /** The digest of stored objects has no collisions. */
  ghost predicate CollisionFreeDigest(w: World) {
    forall a: Blob, b: Blob :: w.sha(a) == w.sha(b) ==> a == b
  }

  /** The hash of log entries has no collisions. */
  ghost predicate CollisionFreeEntryHash(w: World) {
    forall a: Preimage, b: Preimage :: w.entryHash(a) == w.entryHash(b) ==> a == b
  }
}
