/**
 The archive as a state machine.  Any number of publishers, snapshot publishers, readers, copiers, planners
 and executors act on one object store and one control object; a step is one store operation of one actor.
 A process may be abandoned at any step (a crash) and its place taken by a new call.

 The store gives every write a fresh version; the clock never goes back; a caller's clock reading never
 leads the clock.  A control operation is one step (see GcControl); so is validating the fence and
 deleting one candidate.
 */
module Archive {
  import opened Model
  import opened Checkpoint
  import opened Publication
  import opened Copying
  import opened GcControl
  import opened GcHistory
  import opened GcPlanning

  datatype PubPc =
    | PubQuiet                 // no call in progress
    | PubCalled                // call begun
    | PubChecked               // generation seen not retired
    | PubPlaced(k: nat)        // entries[k..] continue the loaded manifest
    | PubRenewed(k: nat)       // lease renewed after the placement
    | PubCreated(k: nat)       // segment object created
    | PubArmed(k: nat)         // lease renewed again, manifest swap next
    | PubMigrating             // lease renewed, format migration swap next
    | PubLost                  // a swap was lost; the manifest must be there when loaded again

  datatype SnapPc =
    | SnapQuiet
    | SnapCalled
    | SnapChecked
    | SnapRenewed
    | SnapPut                  // create attempted
    | SnapReady                // object verified
    | SnapArmed                // lease renewed, manifest swap next

  datatype ReadPc =
    | ReadQuiet
    | ReadCalled
    | ReadLeased
    | ReadChecked
    | ReadLoaded(manifest: Manifest)                  // the base object is next
    | ReadSegments(manifest: Manifest, snapshot: Option<Bytes>, es: seq<Entry>, n: nat)   // n segments read
    | ReadDone(manifest: Manifest, result: Restored)
    | ReadFailed(error: Error)

  datatype CopyPc =
    | CopyQuiet
    | CopyCalled
    | CopyHalfLeased                 // reader lease taken
    | CopyLeased                     // publisher lease taken too
    | CopySeen                       // source seen not retired
    | CopyChecked                    // target seen not retired
    | CopyRestoring(read: ReadPc)    // source manifest loaded; the source is being restored
    | CopyObjects(result: Restored, n: nat)            // n objects copied and verified
    | CopyGot(result: Restored, n: nat, blob: Blob)    // the next one downloaded
    | CopyPlaced(result: Restored, n: nat)             // create attempted
    | CopyReady(result: Restored)                      // no target manifest seen
    | CopyFound(result: Restored)                      // the target has this very manifest
    | CopyPublished(result: Restored, version: nat)
    | CopyWithdrawing(result: Restored, version: nat)  // the source has changed
    | CopyConfirmed(result: Restored)                  // the source has not changed
    | CopyDone(result: Restored, confirmed: bool)

  datatype ExecPc =
    | ExecStart
    | ExecPlanned
    | ExecHolding
    | ExecEntered
    | ExecGot(version: nat)    // root manifest read with the planned digest
    | ExecContended            // the fencing write lost to another write
    | ExecFenced
    | ExecSweeping(results: seq<Evidence>)
    | ExecDeleted(results: seq<Evidence>, outcome: Outcome)
    | ExecReported(report: Report)
    | ExecDone(report: Report)

  /** `born` remembers whether the generation was already retired when the call began. */
  datatype Pub = Pub(id: Identity, lease: nat, born: bool, entries: seq<Entry>, loaded: Option<Loaded>, pc: PubPc)

  datatype Snap = Snap(id: Identity, lease: nat, born: bool, base: SnapshotBase, bytes: Bytes,
                       loaded: Option<Loaded>, pc: SnapPc)

  datatype Read = Read(id: Identity, lease: nat, born: bool, pc: ReadPc)

  /** `born` is about the target; `reread` is the source manifest the copier's own restore loaded. */
  datatype Copier = Copier(source: Identity, target: Identity, sourceLease: nat, targetLease: nat, born: bool,
                           loaded: Option<Loaded>, reread: Option<Loaded>, pc: CopyPc)

  datatype Planner = Planner(policy: Policy, now: nat, control: Control, root: Option<Manifest>,
                             listings: map<Identity, seq<Meta>>)

  /** `tenure` is the barrier tenure in which the executor read the root manifest it then fenced. */
  datatype Exec = Exec(planHash: Hash, now: nat, tenure: nat, pc: ExecPc)

  datatype Proc = PubProc(pub: Pub) | SnapProc(snap: Snap) | ReadProc(read: Read) | CopyProc(copier: Copier)
                | PlanProc(planner: Planner) | ExecProc(exec: Exec)

  /** What the processes share.  `tenure` counts how often the barrier has entered its delete phase and
      `tenureStart` is the next version at the latest such moment; both are history only. */
  datatype Shared = Shared(
    h: History,
    store: Store,
    version: nat,
    plans: map<Hash, Plan>,
    evidence: map<(Hash, Key), Evidence>,
    reports: map<Hash, Report>,
    tenure: nat,
    tenureStart: nat)

  datatype State = State(sh: Shared, procs: map<nat, Proc>)

  // ---------------------------------------------------------------- effects on the shared state

  predicate InDeletePhase(sh: Shared) {
    IsDeleting(sh.h.control)
  }

  ghost predicate ControlWrite(w: World, sh: Shared, sh': Shared, op: ControlOp) {
    && OpStep(w, sh.h, sh'.h, op)
    && sh' == (if !InDeletePhase(sh) && IsDeleting(sh'.h.control)
               then sh.(h := sh'.h, tenure := sh.tenure + 1, tenureStart := sh.version)
               else sh.(h := sh'.h))
  }

  /** A write of one object under a fresh version. */
  function Write(sh: Shared, key: Key, blob: Blob): Shared {
    sh.(store := sh.store[key := Obj(blob, sh.version, sh.h.clock)], version := sh.version + 1)
  }

  function Remove(sh: Shared, key: Key): Shared {
    sh.(store := sh.store - {key})
  }

  function EmptyManifest(id: Identity): Manifest {
    Manifest(CHECKPOINT_FORMAT, id, Genesis, [], Tip(0, ZERO))
  }

  /** One page of a listing of one generation: objects that are there when the page is read. */
  ghost predicate IsPage(store: Store, id: Identity, metas: seq<Meta>) {
    forall m :: m in metas ==>
      m.key.id == id && m.key in store && store[m.key].version == m.version && store[m.key].modified == m.modified
  }

  // ---------------------------------------------------------------- publishers

  /** The manifest a publisher will swap in, and the segment object it references. */
  function NextManifest(w: World, p: Pub, k: nat): Manifest
    requires p.loaded.Some? && k < |p.entries|
  {
    AppendRecord(p.loaded.value.manifest, RecordOf(w, p.id, p.entries[k..]))
  }

  datatype PubAction =
    | PubEnsure | PubInit | PubLoad | PubCovered | PubPlace
    | PubRenew1(now: nat, duration: nat) | PubCreate | PubRenew2(now: nat, duration: nat)
    | PubSwap | PubRetry | PubMigrate(now: nat, duration: nat) | PubMigrateSwap

  ghost predicate PubStep(w: World, sh: Shared, sh': Shared, p: Pub, p': Pub, a: PubAction) {
    match a
    case PubEnsure =>
      p.pc.PubCalled? && !IsRetired(sh.h.control, p.id) && sh' == sh && p' == p.(pc := PubChecked)
    case PubInit =>
      && p.pc.PubChecked? && ManifestKey(p.id) !in sh.store
      && sh' == Write(sh, ManifestKey(p.id), ManifestBlob(EmptyManifest(p.id)))
      && p' == p.(loaded := Some(Loaded(EmptyManifest(p.id), sh.version)))
    case PubLoad =>
      && (p.pc.PubChecked? || p.pc.PubLost?) && ManifestKey(p.id) in sh.store
      && var o := sh.store[ManifestKey(p.id)];
      && o.blob.ManifestBlob? && ValidManifest(p.id, o.blob.manifest)
      && sh' == sh && p' == p.(loaded := Some(Loaded(o.blob.manifest, o.version)), pc := PubChecked)
    case PubCovered =>
      && p.pc.PubChecked? && p.loaded.Some? && p.entries != []
      && SuffixStart(w, sh.store, p.id, p.loaded.value.manifest, p.entries) == Ok(None)
      && sh' == sh && p' == p.(pc := PubQuiet)
    case PubPlace =>
      && p.pc.PubChecked? && p.loaded.Some? && p.entries != []
      && var placed := SuffixStart(w, sh.store, p.id, p.loaded.value.manifest, p.entries);
      && placed.Ok? && placed.value.Some? && placed.value.value < |p.entries|
      && Chained(w, p.id, p.entries[placed.value.value..], p.loaded.value.manifest.tip)
      && sh' == sh && p' == p.(pc := PubPlaced(placed.value.value))
    case PubRenew1(now, duration) =>
      && p.pc.PubPlaced?
      && ControlWrite(w, sh, sh', RenewLease(Publisher, p.lease, now, duration))
      && p' == p.(pc := PubRenewed(p.pc.k))
    case PubCreate =>
      && p.pc.PubRenewed? && p.pc.k < |p.entries|
      && var blob := SegmentBlob(p.entries[p.pc.k..]);
      && var key := RecordOf(w, p.id, p.entries[p.pc.k..]).key;
      && (if key in sh.store then sh.store[key].blob == blob && sh' == sh else sh' == Write(sh, key, blob))
      && p' == p.(pc := PubCreated(p.pc.k))
    case PubRenew2(now, duration) =>
      && p.pc.PubCreated? && p.loaded.Some? && p.pc.k < |p.entries|
      && ValidManifest(p.id, NextManifest(w, p, p.pc.k))
      && ControlWrite(w, sh, sh', RenewLease(Publisher, p.lease, now, duration))
      && p' == p.(pc := PubArmed(p.pc.k))
    case PubSwap =>
      && p.pc.PubArmed? && p.loaded.Some? && p.pc.k < |p.entries|
      && ManifestKey(p.id) in sh.store && sh.store[ManifestKey(p.id)].version == p.loaded.value.version
      && sh' == Write(sh, ManifestKey(p.id), ManifestBlob(NextManifest(w, p, p.pc.k)))
      && p' == p.(loaded := Some(Loaded(NextManifest(w, p, p.pc.k), sh.version)), pc := PubQuiet)
    case PubRetry =>
      && (p.pc.PubArmed? || p.pc.PubMigrating?) && p.loaded.Some?
      && !(ManifestKey(p.id) in sh.store && sh.store[ManifestKey(p.id)].version == p.loaded.value.version)
      && sh' == sh && p' == p.(loaded := None, pc := PubLost)
    case PubMigrate(now, duration) =>
      && p.pc.PubChecked? && p.loaded.Some?
      && p.loaded.value.manifest.format == CHECKPOINT_V1_FORMAT && p.loaded.value.manifest.base.Genesis?
      && ValidManifest(p.id, Migrate(p.loaded.value.manifest))
      && ControlWrite(w, sh, sh', RenewLease(Publisher, p.lease, now, duration))
      && p' == p.(pc := PubMigrating)
    case PubMigrateSwap =>
      && p.pc.PubMigrating? && p.loaded.Some?
      && ManifestKey(p.id) in sh.store && sh.store[ManifestKey(p.id)].version == p.loaded.value.version
      && sh' == Write(sh, ManifestKey(p.id), ManifestBlob(Migrate(p.loaded.value.manifest)))
      && p' == p.(loaded := Some(Loaded(Migrate(p.loaded.value.manifest), sh.version)), pc := PubChecked)
  }

  // ---------------------------------------------------------------- snapshot publishers

  datatype SnapAction =
    | SnapEnsure | SnapLoad | SnapRenew1(now: nat, duration: nat) | SnapCreate | SnapVerify
    | SnapRenew2(now: nat, duration: nat) | SnapSwap | SnapRetry

  ghost predicate SnapStep(w: World, sh: Shared, sh': Shared, p: Snap, p': Snap, a: SnapAction) {
    match a
    case SnapEnsure =>
      && p.pc.SnapCalled? && !IsRetired(sh.h.control, p.id)
      && ValidSnapshotBase(p.id, p.base)
      && p.base.digest == w.sha(SnapshotBlob(p.bytes)) && p.base.size == w.size(SnapshotBlob(p.bytes))
      && sh' == sh && p' == p.(pc := SnapChecked)
    case SnapLoad =>
      && (p.pc.SnapChecked? || p.pc.SnapReady?) && ManifestKey(p.id) in sh.store
      && var o := sh.store[ManifestKey(p.id)];
      && o.blob.ManifestBlob? && ValidManifest(p.id, o.blob.manifest)
      && sh' == sh && p' == p.(loaded := Some(Loaded(o.blob.manifest, o.version)))
    case SnapRenew1(now, duration) =>
      && p.pc.SnapChecked?
      && ControlWrite(w, sh, sh', RenewLease(Publisher, p.lease, now, duration))
      && p' == p.(pc := SnapRenewed)
    case SnapCreate =>
      && p.pc.SnapRenewed?
      && sh' == (if p.base.key in sh.store then sh else Write(sh, p.base.key, SnapshotBlob(p.bytes)))
      && p' == p.(pc := SnapPut)
    case SnapVerify =>
      && p.pc.SnapPut? && Download(w, sh.store, p.base.key, p.base.size, p.base.digest).Ok?
      && sh' == sh && p' == p.(pc := SnapReady)
    case SnapRenew2(now, duration) =>
      && p.pc.SnapReady? && p.loaded.Some?
      && var c := Compact(p.loaded.value.manifest, p.base);
      && c.Ok? && c.value.Replaced? && ValidManifest(p.id, c.value.manifest)
      && ControlWrite(w, sh, sh', RenewLease(Publisher, p.lease, now, duration))
      && p' == p.(pc := SnapArmed)
    case SnapSwap =>
      && p.pc.SnapArmed? && p.loaded.Some?
      && var c := Compact(p.loaded.value.manifest, p.base);
      && c.Ok? && c.value.Replaced?
      && ManifestKey(p.id) in sh.store && sh.store[ManifestKey(p.id)].version == p.loaded.value.version
      && sh' == Write(sh, ManifestKey(p.id), ManifestBlob(c.value.manifest))
      && p' == p.(loaded := Some(Loaded(c.value.manifest, sh.version)), pc := SnapQuiet)
    case SnapRetry =>
      && p.pc.SnapArmed? && p.loaded.Some?
      && !(ManifestKey(p.id) in sh.store && sh.store[ManifestKey(p.id)].version == p.loaded.value.version)
      && sh' == sh && p' == p.(loaded := None, pc := SnapReady)
  }

  // ---------------------------------------------------------------- readers

  /** A manifest is loaded and its objects are being read. */
  predicate ReadHolding(pc: ReadPc) {
    pc.ReadLoaded? || pc.ReadSegments?
  }

  datatype ReadAction =
    | ReadLease(now: nat, duration: nat) | ReadEnsure | ReadManifest | ReadRenew(now: nat, duration: nat)
    | ReadBase | ReadSegment | ReadFinish

  ghost predicate ReadStep(w: World, sh: Shared, sh': Shared, p: Read, p': Read, a: ReadAction) {
    match a
    case ReadLease(now, duration) =>
      && p.pc.ReadCalled?
      && ControlWrite(w, sh, sh', AcquireLease(Reader, p.lease, now, duration))
      && p' == p.(pc := ReadLeased)
    case ReadEnsure =>
      p.pc.ReadLeased? && !IsRetired(sh.h.control, p.id) && sh' == sh && p' == p.(pc := ReadChecked)
    case ReadManifest =>
      && p.pc.ReadChecked? && sh' == sh
      && (if ManifestKey(p.id) !in sh.store then
            var m := EmptyManifest(p.id);
            p' == p.(pc := ReadDone(m, Restored(None, [], m.tip)))
          else
            var o := sh.store[ManifestKey(p.id)];
            && o.blob.ManifestBlob? && ValidManifest(p.id, o.blob.manifest)
            && p' == p.(pc := ReadLoaded(o.blob.manifest)))
    case ReadRenew(now, duration) =>
      && ReadHolding(p.pc) && ControlWrite(w, sh, sh', RenewLease(Reader, p.lease, now, duration)) && p' == p
    case ReadBase =>
      && p.pc.ReadLoaded? && sh' == sh
      && var got := RestoreBase(w, sh.store, p.pc.manifest.base);
      p' == p.(pc := if got.Err? then ReadFailed(got.error) else ReadSegments(p.pc.manifest, got.value, [], 0))
    case ReadSegment =>
      && p.pc.ReadSegments? && p.pc.n < |p.pc.manifest.segments| && sh' == sh
      && var got := LoadSegment(w, sh.store, p.id, p.pc.manifest.segments[p.pc.n]);
      p' == p.(pc := if got.Err? then ReadFailed(got.error)
                     else if !Chained(w, p.id, got.value, EndTip(p.pc.es, BaseTip(p.pc.manifest.base)))
                     then ReadFailed(InvalidCheckpoint)
                     else p.pc.(es := p.pc.es + got.value, n := p.pc.n + 1))
    case ReadFinish =>
      && p.pc.ReadSegments? && p.pc.n == |p.pc.manifest.segments| && sh' == sh
      && var m := p.pc.manifest;
      p' == p.(pc := if EndTip(p.pc.es, BaseTip(m.base)) != m.tip then ReadFailed(InvalidCheckpoint)
                     else ReadDone(m, Restored(p.pc.snapshot, p.pc.es, m.tip)))
  }

  // ---------------------------------------------------------------- copiers

  /** The restore of the source that a copier performs first, as a reader would. */
  function SourceReader(p: Copier, pc: ReadPc): Read {
    Read(p.source, p.sourceLease, false, pc)
  }

  predicate RestoreAction(a: ReadAction) {
    a.ReadManifest? || a.ReadRenew? || a.ReadBase? || a.ReadSegment? || a.ReadFinish?
  }

  /** The manifest the copier is to publish. */
  function Goods(p: Copier): Manifest
    requires p.loaded.Some?
  {
    CopyOf(p.target, p.loaded.value.manifest)
  }

  function ParcelsOf(p: Copier): seq<Parcel>
    requires p.loaded.Some?
  {
    Parcels(p.target, p.loaded.value.manifest)
  }

  datatype CopyAction =
    | CopyLeaseSource(now: nat, duration: nat) | CopyLeaseTarget(now: nat, duration: nat)
    | CopySeeSource | CopySeeTarget | CopyLoad | CopyRestore(read: ReadAction) | CopyStart
    | CopyRenew(kind: LeaseKind, now: nat, duration: nat) | CopyGet | CopyPut | CopyVerify
    | CopyLook | CopyPublish | CopyAdopt | CopyRecheck | CopyWithdraw | CopyRegister(now: nat)

  ghost predicate CopyStep(w: World, sh: Shared, sh': Shared, p: Copier, p': Copier, a: CopyAction) {
    match a
    case CopyLeaseSource(now, duration) =>
      && p.pc.CopyCalled? && SameLineage(p.source, p.target)
      && ControlWrite(w, sh, sh', AcquireLease(Reader, p.sourceLease, now, duration))
      && p' == p.(pc := CopyHalfLeased)
    case CopyLeaseTarget(now, duration) =>
      && p.pc.CopyHalfLeased?
      && ControlWrite(w, sh, sh', AcquireLease(Publisher, p.targetLease, now, duration))
      && p' == p.(pc := CopyLeased)
    case CopySeeSource =>
      p.pc.CopyLeased? && !IsRetired(sh.h.control, p.source) && sh' == sh && p' == p.(pc := CopySeen)
    case CopySeeTarget =>
      p.pc.CopySeen? && !IsRetired(sh.h.control, p.target) && sh' == sh && p' == p.(pc := CopyChecked)
    case CopyLoad =>
      && p.pc.CopyChecked? && ManifestKey(p.source) in sh.store
      && var o := sh.store[ManifestKey(p.source)];
      && o.blob.ManifestBlob? && ValidManifest(p.source, o.blob.manifest)
      && o.blob.manifest.format == CHECKPOINT_FORMAT
      && sh' == sh && p' == p.(loaded := Some(Loaded(o.blob.manifest, o.version)), pc := CopyRestoring(ReadChecked))
    case CopyRestore(read) =>
      && p.pc.CopyRestoring? && RestoreAction(read) && p'.pc.CopyRestoring?
      && ReadStep(w, sh, sh', SourceReader(p, p.pc.read), SourceReader(p, p'.pc.read), read)
      && p' == p.(pc := p'.pc,
                  reread := if read.ReadManifest? && ManifestKey(p.source) in sh.store
                               && sh.store[ManifestKey(p.source)].blob.ManifestBlob?
                            then Some(Loaded(sh.store[ManifestKey(p.source)].blob.manifest,
                                             sh.store[ManifestKey(p.source)].version))
                            else p.reread)
    case CopyStart =>
      && p.pc.CopyRestoring? && p.pc.read.ReadDone? && sh' == sh && p' == p.(pc := CopyObjects(p.pc.read.result, 0))
    case CopyRenew(kind, now, duration) =>
      && p.pc.CopyObjects?
      && ControlWrite(w, sh, sh',
                      RenewLease(kind, if kind == Reader then p.sourceLease else p.targetLease, now, duration))
      && p' == p
    case CopyGet =>
      && p.pc.CopyObjects? && p.loaded.Some? && p.pc.n < |ParcelsOf(p)|
      && var x := ParcelsOf(p)[p.pc.n];
      && var got := Download(w, sh.store, x.from, x.size, x.sha);
      && got.Ok? && sh' == sh && p' == p.(pc := CopyGot(p.pc.result, p.pc.n, got.value))
    case CopyPut =>
      && p.pc.CopyGot? && p.loaded.Some? && p.pc.n < |ParcelsOf(p)|
      && var key := ParcelsOf(p)[p.pc.n].to;
      && sh' == (if key in sh.store then sh else Write(sh, key, p.pc.blob))
      && p' == p.(pc := CopyPlaced(p.pc.result, p.pc.n))
    case CopyVerify =>
      && p.pc.CopyPlaced? && p.loaded.Some? && p.pc.n < |ParcelsOf(p)|
      && var x := ParcelsOf(p)[p.pc.n];
      && Download(w, sh.store, x.to, x.size, x.sha).Ok?
      && sh' == sh && p' == p.(pc := CopyObjects(p.pc.result, p.pc.n + 1))
    case CopyLook =>
      && p.pc.CopyObjects? && p.loaded.Some? && p.pc.n == |ParcelsOf(p)|
      && ValidManifest(p.target, Goods(p)) && sh' == sh
      && (if ManifestKey(p.target) in sh.store
          then sh.store[ManifestKey(p.target)].blob == ManifestBlob(Goods(p)) && p' == p.(pc := CopyFound(p.pc.result))
          else p' == p.(pc := CopyReady(p.pc.result)))
    case CopyPublish =>
      && p.pc.CopyReady? && p.loaded.Some?
      && (if ManifestKey(p.target) !in sh.store then
            && sh' == Write(sh, ManifestKey(p.target), ManifestBlob(Goods(p)))
            && p' == p.(pc := CopyPublished(p.pc.result, sh.version))
          else    // create finds its own bytes there
            && sh.store[ManifestKey(p.target)].blob == ManifestBlob(Goods(p)) && sh' == sh
            && p' == p.(pc := CopyPublished(p.pc.result, sh.store[ManifestKey(p.target)].version)))
    case CopyAdopt =>         // create was refused, and then the same manifest is found
      && p.pc.CopyReady? && p.loaded.Some? && HasManifest(sh.store, p.target, Goods(p))
      && sh' == sh && p' == p.(pc := CopyFound(p.pc.result))
    case CopyRecheck =>
      && p.pc.CopyPublished? && p.loaded.Some? && sh' == sh
      && p' == p.(pc := if StoredAs(sh.store, p.source, p.loaded.value) then CopyConfirmed(p.pc.result)
                        else CopyWithdrawing(p.pc.result, p.pc.version))
    case CopyWithdraw =>
      && p.pc.CopyWithdrawing?
      && sh' == (if Withdraws(sh, p) then Remove(sh, ManifestKey(p.target)) else sh)
      && p' == p.(pc := CopyQuiet)
    case CopyRegister(now) =>
      && (p.pc.CopyFound? || p.pc.CopyConfirmed?) && ControlWrite(w, sh, sh', Register(p.target, now))
      && p' == p.(pc := CopyDone(p.pc.result, p.pc.CopyConfirmed?))
  }

  /** The exact delete of a withdrawal meets the version it was given. */
  predicate Withdraws(sh: Shared, p: Copier) {
    p.pc.CopyWithdrawing? && ManifestKey(p.target) in sh.store
    && sh.store[ManifestKey(p.target)].version == p.pc.version
  }

  // ---------------------------------------------------------------- planners

  datatype PlanAction = PlanReadRoot | PlanPage(id: Identity, metas: seq<Meta>) | PlanFinish

  ghost predicate PlanStep(w: World, sh: Shared, sh': Shared, p: Planner, p': Planner, a: PlanAction) {
    match a
    case PlanReadRoot =>
      && ManifestKey(p.policy.root) in sh.store
      && var o := sh.store[ManifestKey(p.policy.root)];
      && o.blob.ManifestBlob? && ValidManifest(p.policy.root, o.blob.manifest)
      && sh' == sh && p' == p.(root := Some(o.blob.manifest))
    case PlanPage(id, metas) =>
      && p.root.Some? && IsPage(sh.store, id, metas)
      && sh' == sh && p' == p.(listings := p.listings[id := ListingOf(p.listings, id) + metas])
    case PlanFinish =>
      && p.root.Some?
      && (forall e :: e in ActiveOnly(p.control.generations) ==> e.identity in p.listings)
      && var r := PlanGc(w, p.policy, p.control, p.root.value, p.listings, p.now);
      && r.Ok? && r.value.hash !in sh.plans
      && sh' == sh.(plans := sh.plans[r.value.hash := r.value])
      && p' == p
  }

  // ---------------------------------------------------------------- executors

  datatype ExecAction =
    | ExecLoad | ExecBarrier | ExecEnter | ExecGet | ExecFence | ExecContend | ExecRecheck | ExecRetire
    | ExecSkip | ExecDelete | ExecRecord | ExecReport | ExecClear | ExecAdopt

  /** The evidence a deletion leaves. */
  function EvidenceOf(p: Exec, c: Candidate, outcome: Outcome): Evidence {
    Evidence(p.planHash, c.key, c.version, outcome, p.now)
  }

  ghost predicate ExecStep(w: World, sh: Shared, sh': Shared, p: Exec, p': Exec, a: ExecAction) {
    if a.ExecAdopt? then    // a report already exists
      p.planHash in sh.reports && sh' == sh && p' == p.(pc := ExecDone(sh.reports[p.planHash]))
    else
    && p.planHash in sh.plans
    && var plan := sh.plans[p.planHash];
    && var root := ManifestKey(plan.root);
    match a
    case ExecAdopt => false
    case ExecLoad =>
      && p.pc.ExecStart? && plan.hash == p.planHash && plan.hash == w.planHash(plan.(hash := ZERO))
      && p.now >= plan.notBefore
      && sh' == sh && p' == p.(pc := ExecPlanned)
    case ExecBarrier =>
      && p.pc.ExecPlanned? && ControlWrite(w, sh, sh', AcquireBarrier(plan, p.now))
      && p' == p.(pc := ExecHolding)
    case ExecEnter =>
      && p.pc.ExecHolding? && ControlWrite(w, sh, sh', EnterDelete(plan, p.now))
      && p' == p.(pc := ExecEntered)
    case ExecGet =>
      && p.pc.ExecEntered? && root in sh.store && w.sha(sh.store[root].blob) == plan.rootSha
      && sh' == sh && p' == p.(pc := ExecGot(sh.store[root].version), tenure := sh.tenure)
    case ExecFence =>
      && p.pc.ExecGot? && root in sh.store && sh.store[root].version == p.pc.version
      && sh' == Write(sh, root, sh.store[root].blob) && p' == p.(pc := ExecFenced)
    case ExecContend =>
      && p.pc.ExecGot? && !(root in sh.store && sh.store[root].version == p.pc.version)
      && sh' == sh && p' == p.(pc := ExecContended)
    case ExecRecheck =>
      && p.pc.ExecContended? && root in sh.store && w.sha(sh.store[root].blob) == plan.rootSha
      && sh' == sh && p' == p.(pc := ExecFenced)
    case ExecRetire =>
      && p.pc.ExecFenced? && ControlWrite(w, sh, sh', RetirePlan(plan, p.now))
      && p' == p.(pc := ExecSweeping([]))
    case ExecSkip =>
      && p.pc.ExecSweeping? && |p.pc.results| < |plan.candidates|
      && var c := plan.candidates[|p.pc.results|];
      && ValidateFence(sh.h.control, plan, p.now).Ok?
      && (p.planHash, c.key) in sh.evidence
      && var e := sh.evidence[(p.planHash, c.key)];
      && e.planHash == p.planHash && e.key == c.key && e.version == c.version
      && sh' == sh && p' == p.(pc := ExecSweeping(p.pc.results + [e]))
    case ExecDelete =>
      && p.pc.ExecSweeping? && |p.pc.results| < |plan.candidates|
      && var c := plan.candidates[|p.pc.results|];
      && ValidateFence(sh.h.control, plan, p.now).Ok?
      && IsKnownObject(c.generation, c.key)
      && (p.planHash, c.key) !in sh.evidence
      && (if c.key !in sh.store then
            sh' == sh && p' == p.(pc := ExecDeleted(p.pc.results, AlreadyMissing))
          else
            && sh.store[c.key].version == c.version
            && sh' == Remove(sh, c.key) && p' == p.(pc := ExecDeleted(p.pc.results, Deleted)))
    case ExecRecord =>
      && p.pc.ExecDeleted? && |p.pc.results| < |plan.candidates|
      && var c := plan.candidates[|p.pc.results|];
      && var at := (p.planHash, c.key);
      if at in sh.evidence then
        && var e := sh.evidence[at];
        && e.planHash == p.planHash && e.key == c.key && e.version == c.version
        && sh' == sh && p' == p.(pc := ExecSweeping(p.pc.results + [e]))
      else
        && var e := EvidenceOf(p, c, p.pc.outcome);
        && sh' == sh.(evidence := sh.evidence[at := e]) && p' == p.(pc := ExecSweeping(p.pc.results + [e]))
    case ExecReport =>
      && p.pc.ExecSweeping? && |p.pc.results| == |plan.candidates|
      && var report := Report(p.planHash, ExecutionFence(plan), p.now, p.pc.results);
      if p.planHash in sh.reports then
        sh' == sh && p' == p.(pc := ExecReported(sh.reports[p.planHash]))
      else
        && sh' == sh.(reports := sh.reports[p.planHash := report]) && p' == p.(pc := ExecReported(report))
    case ExecClear =>
      && p.pc.ExecReported? && ControlWrite(w, sh, sh', ClearBarrier(plan))
      && p' == p.(pc := ExecDone(p.pc.report))
  }

  // ---------------------------------------------------------------- the whole system

  datatype Action =
    | ByPub(pub: PubAction)
    | BySnap(snap: SnapAction)
    | ByRead(read: ReadAction)
    | ByCopy(copy: CopyAction)
    | ByPlan(plan: PlanAction)
    | ByExec(exec: ExecAction)

  datatype Label =
    | Advance(to: nat)                      // the clock moves
    | Call(op: ControlOp)                   // a lease, registration, root or abort call by anyone
    | Begin(pid: nat, proc: Proc)           // a call begins, perhaps where another was abandoned
    | Act(pid: nat, action: Action)

  ghost predicate ActorStep(w: World, sh: Shared, sh': Shared, p: Proc, p': Proc, a: Action) {
    match a
    case ByPub(x) => p.PubProc? && p'.PubProc? && PubStep(w, sh, sh', p.pub, p'.pub, x)
    case BySnap(x) => p.SnapProc? && p'.SnapProc? && SnapStep(w, sh, sh', p.snap, p'.snap, x)
    case ByRead(x) => p.ReadProc? && p'.ReadProc? && ReadStep(w, sh, sh', p.read, p'.read, x)
    case ByCopy(x) => p.CopyProc? && p'.CopyProc? && CopyStep(w, sh, sh', p.copier, p'.copier, x)
    case ByPlan(x) => p.PlanProc? && p'.PlanProc? && PlanStep(w, sh, sh', p.planner, p'.planner, x)
    case ByExec(x) => p.ExecProc? && p'.ExecProc? && ExecStep(w, sh, sh', p.exec, p'.exec, x)
  }

  /** A manifest that a publisher session may start from: the one in the store now, or one that some
      session read earlier and kept or handed over. */
  ghost predicate Cached(s: State, id: Identity, ld: Loaded) {
    || StoredAs(s.sh.store, id, ld)
    || (exists q :: q in s.procs && s.procs[q].PubProc? && s.procs[q].pub.id == id && s.procs[q].pub.loaded == Some(ld))
    || (exists q ::
          q in s.procs && s.procs[q].SnapProc? && s.procs[q].snap.id == id && s.procs[q].snap.loaded == Some(ld))
  }

  /** How a call starts. */
  ghost predicate CanBegin(s: State, p: Proc) {
    match p
    case PubProc(x) =>
      && x.pc.PubCalled? && x.born == IsRetired(s.sh.h.control, x.id)
      && (x.loaded.Some? ==> Cached(s, x.id, x.loaded.value))
    case SnapProc(x) =>
      && x.pc.SnapCalled? && x.born == IsRetired(s.sh.h.control, x.id)
      && (x.loaded.Some? ==> Cached(s, x.id, x.loaded.value))
    case ReadProc(x) => x.pc.ReadCalled? && x.born == IsRetired(s.sh.h.control, x.id)
    case CopyProc(x) =>
      x.pc.CopyCalled? && x.born == IsRetired(s.sh.h.control, x.target) && x.loaded.None? && x.reread.None?
    case PlanProc(x) =>
      x.now <= s.sh.h.clock && x.control == s.sh.h.control && x.root.None? && x.listings == map[]
    case ExecProc(x) => x.now <= s.sh.h.clock && x.tenure == 0 && x.pc.ExecStart?
  }

  predicate AnyoneMay(op: ControlOp) {
    op.AcquireLease? || op.ReleaseLease? || op.RenewLease? || op.Register? || op.SetRoot? || op.Abort?
  }

  ghost predicate Next(w: World, s: State, s': State, l: Label) {
    match l
    case Advance(to) => s.sh.h.clock <= to && s' == s.(sh := s.sh.(h := s.sh.h.(clock := to)))
    case Call(op) => AnyoneMay(op) && ControlWrite(w, s.sh, s'.sh, op) && s'.procs == s.procs
    case Begin(pid, p) => CanBegin(s, p) && s' == s.(procs := s.procs[pid := p])
    case Act(pid, a) =>
      && pid in s.procs && pid in s'.procs
      && ActorStep(w, s.sh, s'.sh, s.procs[pid], s'.procs[pid], a)
      && s'.procs == s.procs[pid := s'.procs[pid]]
  }
}
