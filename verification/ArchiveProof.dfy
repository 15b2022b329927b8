/**
 The proof that every step of the archive keeps its invariant.  A step changes the shared state in one of
 six ways (the control object, a new object, a manifest, a deletion, a withdrawn manifest, the books); for
 each there is a lemma about the shared state and one about processes that stand by; then each kind of actor
 is shown to keep its own part.
 */
module ArchiveProof {
  import opened Model
  import opened Checkpoint
  import opened Copying
  import opened GcControl
  import opened GcHistory
  import opened GcPlanning
  import opened Archive
  import opened ArchiveSafety

  // ---------------------------------------------------------------- references under store changes

  lemma RefsHoldFrame(w: World, store: Store, store': Store, m: Manifest)
    requires RefsHold(w, store, m)
    requires forall k :: References(m, k) && k in store ==> k in store' && store'[k] == store[k]
    ensures RefsHold(w, store', m)
  {
    forall i | 0 <= i < |m.segments|
      ensures Intact(w, store', m.segments[i].key, m.segments[i].size, m.segments[i].sha)
    {
      assert Intact(w, store, m.segments[i].key, m.segments[i].size, m.segments[i].sha);
      assert References(m, m.segments[i].key);
    }
  }

  lemma ValidReferences(id: Identity, m: Manifest, key: Key)
    requires ValidManifest(id, m) && References(m, key)
    ensures IsKnownObject(id, key)
  {
    if !(m.base.Snapshot? && m.base.snapshot.key == key) {
      var i :| 0 <= i < |m.segments| && m.segments[i].key == key;
      assert RecordOk(id, m, i);
    }
  }

  // ---------------------------------------------------------------- the books under other changes

  /** Versions only grow, and no object comes back at a version that it once had. */
  ghost predicate VersionsGrow(sh: Shared, sh': Shared) {
    && sh.version <= sh'.version
    && forall k :: k in sh'.store ==>
         (k in sh.store && sh'.store[k].version == sh.store[k].version) || sh.version <= sh'.store[k].version
  }

  lemma BooksFrame(w: World, sh: Shared, sh': Shared)
    requires BooksInv(w, sh) && VersionsGrow(sh, sh')
    requires sh'.plans == sh.plans && sh'.evidence == sh.evidence && sh'.reports == sh.reports
    ensures BooksInv(w, sh')
  {
    forall x | x in sh'.reports ensures ResultsMatch(sh', x, sh'.reports[x].results) {
      assert ResultsMatch(sh, x, sh.reports[x].results);
    }
  }

  // ---------------------------------------------------------------- what a copier needs of any change

  /** Manifests only appear, change and disappear: what is stored afterwards was there before or is new. */
  ghost predicate ManifestsMove(sh: Shared, sh': Shared) {
    && sh.version <= sh'.version
    && forall id :: ManifestKey(id) in sh'.store ==>
         || (ManifestKey(id) in sh.store && sh'.store[ManifestKey(id)] == sh.store[ManifestKey(id)])
         || sh.version <= sh'.store[ManifestKey(id)].version
  }

  lemma LoadedFrame(sh: Shared, sh': Shared, id: Identity, ld: Loaded)
    requires LoadedOk(sh, id, ld) && ManifestsMove(sh, sh')
    ensures LoadedOk(sh', id, ld) && (Stale(sh, id, ld) ==> Stale(sh', id, ld))
  {
  }

  predicate PhaseMoves(sh: Shared, sh': Shared) {
    InDeletePhase(sh') ==> (InDeletePhase(sh) && sh'.tenureStart == sh.tenureStart) || sh.version <= sh'.tenureStart
  }

  /** A copier that stands by. */
  lemma CopierStandsBy(w: World, sh: Shared, sh': Shared, p: Copier)
    requires CopyInv(w, sh, p) && ManifestsMove(sh, sh') && PhaseMoves(sh, sh')
    requires p.born ==> IsRetired(sh'.h.control, p.target)
    requires CopyGuarded(p.pc) ==> ParcelsHeld(w, sh'.store, ParcelsOf(p), Copied(p.pc, |ParcelsOf(p)|))
    ensures CopyInv(w, sh', p)
  {
    if p.loaded.Some? { LoadedFrame(sh, sh', p.source, p.loaded.value); }
    if p.reread.Some? { LoadedFrame(sh, sh', p.source, p.reread.value); }
    if p.pc.CopyPublished? || p.pc.CopyWithdrawing? {
      LoadedFrame(sh, sh', p.target, Loaded(Goods(p), p.pc.version));
    }
  }

  lemma ParcelsFrame(w: World, store: Store, store': Store, target: Identity, m: Manifest, n: nat)
    requires ParcelsHeld(w, store, Parcels(target, m), n)
    requires forall k :: k in store && !k.ManifestKey? ==> k in store' && store'[k] == store[k]
    ensures ParcelsHeld(w, store', Parcels(target, m), n)
  {
    var xs := Parcels(target, m);
    forall i | 0 <= i < n ensures Intact(w, store', xs[i].to, xs[i].size, xs[i].sha) {
      assert Intact(w, store, xs[i].to, xs[i].size, xs[i].sha);
      assert !xs[i].to.ManifestKey?;
    }
  }

  /** A copier that stands by while objects other than manifests stay as they are. */
  lemma CopierAmidWrites(w: World, sh: Shared, sh': Shared, p: Copier)
    requires CopyInv(w, sh, p) && ManifestsMove(sh, sh') && sh'.h == sh.h && sh'.tenureStart == sh.tenureStart
    requires forall k :: k in sh.store && !k.ManifestKey? ==> k in sh'.store && sh'.store[k] == sh.store[k]
    ensures CopyInv(w, sh', p)
  {
    if CopyGuarded(p.pc) {
      ParcelsFrame(w, sh.store, sh'.store, p.target, p.loaded.value.manifest, Copied(p.pc, |ParcelsOf(p)|));
    }
    CopierStandsBy(w, sh, sh', p);
  }

  // ---------------------------------------------------------------- 1. the control object

  /** A control write or a tick: everything else stays. */
  ghost predicate ControlChange(sh: Shared, sh': Shared) {
    && sh'.store == sh.store && sh'.version == sh.version
    && sh'.plans == sh.plans && sh'.evidence == sh.evidence && sh'.reports == sh.reports
    && sh.h.clock <= sh'.h.clock
    && CatalogGrows(sh.h.control.generations, sh'.h.control.generations)
    && (if InDeletePhase(sh') && !InDeletePhase(sh)
        then sh'.tenure == sh.tenure + 1 && sh'.tenureStart == sh.version
        else sh'.tenure == sh.tenure && sh'.tenureStart == sh.tenureStart)
    && (!InDeletePhase(sh) ==> forall id :: IsRetired(sh'.h.control, id) ==> IsRetired(sh.h.control, id))
  }

  lemma ControlWriteIsChange(w: World, sh: Shared, sh': Shared, op: ControlOp)
    requires ControlInv(sh.h.control, sh.h.clock) && ControlWrite(w, sh, sh', op)
    ensures ControlChange(sh, sh') && ControlInv(sh'.h.control, sh'.h.clock)
  {
    OpKeepsControl(w, sh.h.control, op, sh.h.clock);
    OnlyRetireRetires(w, sh.h.control, op, sh.h.clock);
  }

  lemma ControlChangeShared(w: World, sh: Shared, sh': Shared)
    requires CoreInv(w, sh) && ControlChange(sh, sh') && ControlInv(sh'.h.control, sh'.h.clock)
    ensures CoreInv(w, sh')
  {
    forall id | IsRetired(sh.h.control, id) ensures IsRetired(sh'.h.control, id) {}
    BooksFrame(w, sh, sh');
  }

  lemma ControlChangeProc(w: World, sh: Shared, sh': Shared, p: Proc, tracked: bool)
    requires LeaseExclusion(sh.h.control, sh.h.clock) && StoreInv(sh) && ControlChange(sh, sh')
    requires ProcInv(w, sh, p, tracked) && LeaseHeld(sh, p, tracked)
    ensures ProcInv(w, sh', p, tracked)
  {
    forall id | IsRetired(sh.h.control, id) ensures IsRetired(sh'.h.control, id) {}
    match p
    case PubProc(x) =>
    case SnapProc(x) =>
    case ReadProc(x) =>
      if tracked && ReadProtected(x.pc) { LiveLeaseExcludes(sh, x.lease); }
    case CopyProc(x) => CopierStandsBy(w, sh, sh', x);
    case PlanProc(x) =>
    case ExecProc(x) => ControlChangeExec(w, sh, sh', x);
  }

  lemma ControlChangeExec(w: World, sh: Shared, sh': Shared, p: Exec)
    requires StoreInv(sh) && ControlChange(sh, sh') && ExecInv(w, sh, p)
    ensures ExecInv(w, sh', p)
  {
    if ExecSwept(p.pc) { assert ResultsMatch(sh, p.planHash, p.pc.results); }
  }

  /** A live lease keeps the barrier out of its delete phase. */
  lemma LiveLeaseExcludes(sh: Shared, lease: nat)
    requires LeaseExclusion(sh.h.control, sh.h.clock) && HasLiveLease(sh, lease)
    ensures !InDeletePhase(sh)
  {
  }

  // ---------------------------------------------------------------- 2. a new object

  lemma CreateShared(w: World, sh: Shared, key: Key, blob: Blob)
    requires CoreInv(w, sh) && key !in sh.store && !key.ManifestKey?
    ensures CoreInv(w, Write(sh, key, blob))
  {
    var sh' := Write(sh, key, blob);
    forall id | ManifestKey(id) in sh'.store && !IsRetired(sh'.h.control, id)
      ensures RefsHold(w, sh'.store, sh'.store[ManifestKey(id)].blob.manifest)
    {
      RefsHoldFrame(w, sh.store, sh'.store, sh.store[ManifestKey(id)].blob.manifest);
    }
    BooksFrame(w, sh, sh');
  }

  lemma CreateProc(w: World, sh: Shared, key: Key, blob: Blob, p: Proc, tracked: bool)
    requires StoreInv(sh) && key !in sh.store && !key.ManifestKey?
    requires ProcInv(w, sh, p, tracked)
    ensures ProcInv(w, Write(sh, key, blob), p, tracked)
  {
    var sh' := Write(sh, key, blob);
    match p
    case PubProc(x) =>
    case SnapProc(x) =>
    case ReadProc(x) =>
      if tracked && ReadHolding(x.pc) { RefsHoldFrame(w, sh.store, sh'.store, x.pc.manifest); }
    case CopyProc(x) => CopierAmidWrites(w, sh, sh', x);
    case PlanProc(x) =>
    case ExecProc(x) => CreateExec(w, sh, key, blob, x);
  }

  lemma CreateExec(w: World, sh: Shared, key: Key, blob: Blob, p: Exec)
    requires key !in sh.store && !key.ManifestKey? && ExecInv(w, sh, p)
    ensures ExecInv(w, Write(sh, key, blob), p)
  {
    if ExecSwept(p.pc) { assert ResultsMatch(sh, p.planHash, p.pc.results); }
  }

  // ---------------------------------------------------------------- 3. a manifest

  /** A manifest write that the invariant allows: its references hold (or the generation is retired), and
      during the delete phase it either keeps the content or replaces one written before the phase. */
  ghost predicate ManifestWriteOk(w: World, sh: Shared, id: Identity, m: Manifest) {
    && ValidManifest(id, m)
    && (IsRetired(sh.h.control, id) || RefsHold(w, sh.store, m))
    && (InDeletePhase(sh) && ManifestKey(id) in sh.store ==>
          || sh.store[ManifestKey(id)].blob == ManifestBlob(m)
          || sh.store[ManifestKey(id)].version < sh.tenureStart)
  }

  lemma ManifestWriteShared(w: World, sh: Shared, id: Identity, m: Manifest)
    requires CoreInv(w, sh) && ManifestWriteOk(w, sh, id, m)
    ensures CoreInv(w, Write(sh, ManifestKey(id), ManifestBlob(m)))
  {
    var sh' := Write(sh, ManifestKey(id), ManifestBlob(m));
    forall g | ManifestKey(g) in sh'.store && !IsRetired(sh'.h.control, g)
      ensures RefsHold(w, sh'.store, sh'.store[ManifestKey(g)].blob.manifest)
    {
      var n := sh'.store[ManifestKey(g)].blob.manifest;
      forall k | References(n, k) ensures k != ManifestKey(id) {
        ValidReferences(g, n, k);
      }
      RefsHoldFrame(w, sh.store, sh'.store, n);
    }
    BooksFrame(w, sh, sh');
  }

  lemma ManifestWriteExec(w: World, sh: Shared, id: Identity, m: Manifest, p: Exec)
    requires StoreInv(sh) && ManifestWriteOk(w, sh, id, m) && ExecInv(w, sh, p)
    ensures ExecInv(w, Write(sh, ManifestKey(id), ManifestBlob(m)), p)
  {
    var sh' := Write(sh, ManifestKey(id), ManifestBlob(m));
    if ExecSwept(p.pc) { assert ResultsMatch(sh, p.planHash, p.pc.results); }
  }

  lemma ManifestWriteRead(w: World, sh: Shared, id: Identity, m: Manifest, p: Read, tracked: bool)
    requires ReadInv(w, sh, p, tracked)
    ensures ReadInv(w, Write(sh, ManifestKey(id), ManifestBlob(m)), p, tracked)
  {
    if tracked && ReadHolding(p.pc) {
      forall k | References(p.pc.manifest, k) ensures k != ManifestKey(id) {
        ValidReferences(p.id, p.pc.manifest, k);
      }
      RefsHoldFrame(w, sh.store, Write(sh, ManifestKey(id), ManifestBlob(m)).store, p.pc.manifest);
    }
  }

  lemma ManifestWritePub(w: World, sh: Shared, id: Identity, m: Manifest, p: Pub)
    requires StoreInv(sh) && ValidManifest(id, m) && PubInv(w, sh, p)
    ensures PubInv(w, Write(sh, ManifestKey(id), ManifestBlob(m)), p)
  {
  }

  lemma ManifestWriteSnap(w: World, sh: Shared, id: Identity, m: Manifest, p: Snap)
    requires StoreInv(sh) && ValidManifest(id, m) && SnapInv(w, sh, p)
    ensures SnapInv(w, Write(sh, ManifestKey(id), ManifestBlob(m)), p)
  {
  }

  lemma ManifestWriteProc(w: World, sh: Shared, id: Identity, m: Manifest, p: Proc, tracked: bool)
    requires StoreInv(sh) && ManifestWriteOk(w, sh, id, m)
    requires ProcInv(w, sh, p, tracked)
    ensures ProcInv(w, Write(sh, ManifestKey(id), ManifestBlob(m)), p, tracked)
  {
    match p
    case PubProc(x) => ManifestWritePub(w, sh, id, m, x);
    case SnapProc(x) => ManifestWriteSnap(w, sh, id, m, x);
    case ReadProc(x) => ManifestWriteRead(w, sh, id, m, x, tracked);
    case CopyProc(x) => CopierAmidWrites(w, sh, Write(sh, ManifestKey(id), ManifestBlob(m)), x);
    case PlanProc(x) =>
    case ExecProc(x) => ManifestWriteExec(w, sh, id, m, x);
  }

  // ---------------------------------------------------------------- 4. a deletion

  /** A deletion that the invariant allows: in the delete phase, of a retired generation, or of one whose
      manifest was written in this tenure and does not reference the object. */
  ghost predicate RemoveOk(sh: Shared, key: Key) {
    && InDeletePhase(sh)
    && !key.ManifestKey?
    && (|| IsRetired(sh.h.control, key.id)
        || (&& ManifestKey(key.id) in sh.store
            && sh.tenureStart <= sh.store[ManifestKey(key.id)].version
            && sh.store[ManifestKey(key.id)].blob.ManifestBlob?
            && !References(sh.store[ManifestKey(key.id)].blob.manifest, key)))
  }

  lemma RemoveShared(w: World, sh: Shared, key: Key)
    requires CoreInv(w, sh) && RemoveOk(sh, key)
    ensures CoreInv(w, Remove(sh, key))
  {
    var sh' := Remove(sh, key);
    forall g | ManifestKey(g) in sh'.store && !IsRetired(sh'.h.control, g)
      ensures RefsHold(w, sh'.store, sh'.store[ManifestKey(g)].blob.manifest)
    {
      var n := sh.store[ManifestKey(g)].blob.manifest;
      forall k | References(n, k) ensures k != key {
        ValidReferences(g, n, k);
      }
      RefsHoldFrame(w, sh.store, sh'.store, n);
    }
    BooksFrame(w, sh, sh');
  }

  lemma RemovePub(w: World, sh: Shared, key: Key, p: Pub)
    requires RemoveOk(sh, key) && PubInv(w, sh, p)
    ensures PubInv(w, Remove(sh, key), p)
  {
    if (p.pc.PubCreated? || p.pc.PubArmed?) && RecordOf(w, p.id, p.entries[p.pc.k..]).key == key {
      assert IsRetired(sh.h.control, p.id) || Stale(sh, p.id, p.loaded.value);
    }
  }

  lemma RemoveExec(w: World, sh: Shared, key: Key, p: Exec)
    requires !key.ManifestKey? && ExecInv(w, sh, p)
    ensures ExecInv(w, Remove(sh, key), p)
  {
    if ExecSwept(p.pc) { assert ResultsMatch(sh, p.planHash, p.pc.results); }
  }

  lemma RemoveProc(w: World, sh: Shared, key: Key, p: Proc, tracked: bool)
    requires LeaseExclusion(sh.h.control, sh.h.clock) && RemoveOk(sh, key)
    requires ProcInv(w, sh, p, tracked) && LeaseHeld(sh, p, tracked)
    ensures ProcInv(w, Remove(sh, key), p, tracked)
  {
    match p
    case PubProc(x) => RemovePub(w, sh, key, x);
    case SnapProc(x) =>
    case ReadProc(x) =>
    case CopyProc(x) =>
      if CopyGuarded(x.pc) { LiveLeaseExcludes(sh, x.targetLease); }
      CopierStandsBy(w, sh, Remove(sh, key), x);
    case PlanProc(x) =>
    case ExecProc(x) => RemoveExec(w, sh, key, x);
  }

  // ---------------------------------------------------------------- 5. a withdrawn manifest

  /** In the delete phase only a manifest written before it may be withdrawn. */
  predicate WithdrawOk(sh: Shared, id: Identity) {
    && ManifestKey(id) in sh.store
    && (InDeletePhase(sh) ==> sh.store[ManifestKey(id)].version < sh.tenureStart)
  }

  lemma WithdrawShared(w: World, sh: Shared, id: Identity)
    requires CoreInv(w, sh) && WithdrawOk(sh, id)
    ensures CoreInv(w, Remove(sh, ManifestKey(id)))
  {
    var sh' := Remove(sh, ManifestKey(id));
    forall g | ManifestKey(g) in sh'.store && !IsRetired(sh'.h.control, g)
      ensures RefsHold(w, sh'.store, sh'.store[ManifestKey(g)].blob.manifest)
    {
      var n := sh.store[ManifestKey(g)].blob.manifest;
      forall k | References(n, k) ensures k != ManifestKey(id) { ValidReferences(g, n, k); }
      RefsHoldFrame(w, sh.store, sh'.store, n);
    }
    BooksFrame(w, sh, sh');
  }

  lemma WithdrawExec(w: World, sh: Shared, id: Identity, p: Exec)
    requires WithdrawOk(sh, id) && ExecInv(w, sh, p)
    ensures ExecInv(w, Remove(sh, ManifestKey(id)), p)
  {
    if ExecSwept(p.pc) { assert ResultsMatch(sh, p.planHash, p.pc.results); }
  }

  lemma WithdrawRead(w: World, sh: Shared, id: Identity, p: Read, tracked: bool)
    requires ReadInv(w, sh, p, tracked)
    ensures ReadInv(w, Remove(sh, ManifestKey(id)), p, tracked)
  {
    if tracked && ReadHolding(p.pc) {
      forall k | References(p.pc.manifest, k) ensures k != ManifestKey(id) {
        ValidReferences(p.id, p.pc.manifest, k);
      }
      RefsHoldFrame(w, sh.store, Remove(sh, ManifestKey(id)).store, p.pc.manifest);
    }
  }

  lemma WithdrawProc(w: World, sh: Shared, id: Identity, p: Proc, tracked: bool)
    requires WithdrawOk(sh, id) && ProcInv(w, sh, p, tracked)
    ensures ProcInv(w, Remove(sh, ManifestKey(id)), p, tracked)
  {
    match p
    case PubProc(x) =>
    case SnapProc(x) =>
    case ReadProc(x) => WithdrawRead(w, sh, id, x, tracked);
    case CopyProc(x) => CopierAmidWrites(w, sh, Remove(sh, ManifestKey(id)), x);
    case PlanProc(x) =>
    case ExecProc(x) => WithdrawExec(w, sh, id, x);
  }

  // ---------------------------------------------------------------- 6. the books

  /** Plans, evidence and reports of one state are still there, unchanged, in another. */
  ghost predicate BooksKept(sh: Shared, sh': Shared) {
    && (forall x :: x in sh.plans ==> x in sh'.plans && sh'.plans[x] == sh.plans[x])
    && (forall x :: x in sh.evidence ==> x in sh'.evidence && sh'.evidence[x] == sh.evidence[x])
    && (forall x :: x in sh.reports ==> x in sh'.reports && sh'.reports[x] == sh.reports[x])
  }

  /** Only the books grow. */
  ghost predicate BooksGrow(sh: Shared, sh': Shared) {
    sh' == sh.(plans := sh'.plans, evidence := sh'.evidence, reports := sh'.reports) && BooksKept(sh, sh')
  }

  lemma AddPlan(w: World, sh: Shared, plan: Plan)
    requires BooksInv(w, sh) && plan.hash !in sh.plans && SoundPlan(w, plan)
    requires forall c :: c in plan.candidates ==> c.version < sh.version
    ensures BooksInv(w, sh.(plans := sh.plans[plan.hash := plan]))
  {
    var sh' := sh.(plans := sh.plans[plan.hash := plan]);
    forall x | x in sh'.reports ensures ResultsMatch(sh', x, sh'.reports[x].results) {
      assert ResultsMatch(sh, x, sh.reports[x].results);
    }
  }

  lemma AddEvidence(w: World, sh: Shared, e: Evidence)
    requires BooksInv(w, sh) && (e.planHash, e.key) !in sh.evidence
    requires e.version < sh.version && GoneAt(sh.store, e.key, e.version)
    ensures BooksInv(w, sh.(evidence := sh.evidence[(e.planHash, e.key) := e]))
  {
    var sh' := sh.(evidence := sh.evidence[(e.planHash, e.key) := e]);
    forall x | x in sh'.reports ensures ResultsMatch(sh', x, sh'.reports[x].results) {
      assert ResultsMatch(sh, x, sh.reports[x].results);
    }
  }

  lemma AddReport(w: World, sh: Shared, r: Report)
    requires BooksInv(w, sh) && r.planHash !in sh.reports && r.planHash in sh.plans
    requires |r.results| == |sh.plans[r.planHash].candidates| && ResultsMatch(sh, r.planHash, r.results)
    ensures BooksInv(w, sh.(reports := sh.reports[r.planHash := r]))
  {
    var sh' := sh.(reports := sh.reports[r.planHash := r]);
    forall x | x in sh'.reports ensures ResultsMatch(sh', x, sh'.reports[x].results) {
      if x in sh.reports { assert ResultsMatch(sh, x, sh.reports[x].results); }
    }
  }

  lemma BooksExec(w: World, sh: Shared, sh': Shared, p: Exec)
    requires BooksGrow(sh, sh') && ExecInv(w, sh, p)
    ensures ExecInv(w, sh', p)
  {
    if ExecSwept(p.pc) { assert ResultsMatch(sh, p.planHash, p.pc.results); }
  }

  lemma BooksProc(w: World, sh: Shared, sh': Shared, p: Proc, tracked: bool)
    requires BooksGrow(sh, sh') && ProcInv(w, sh, p, tracked)
    ensures ProcInv(w, sh', p, tracked)
  {
    match p
    case PubProc(x) =>
    case SnapProc(x) =>
    case ReadProc(x) =>
    case CopyProc(x) => CopierStandsBy(w, sh, sh', x);
    case PlanProc(x) =>
    case ExecProc(x) => BooksExec(w, sh, sh', x);
  }

  // ---------------------------------------------------------------- the six ways together

  datatype Change = Nothing | ControlChanged | Created(key: Key, blob: Blob) | Rewritten(id: Identity, m: Manifest)
                  | Removed(key: Key) | Withdrawn(id: Identity) | Booked

  ghost predicate Allowed(w: World, sh: Shared, sh': Shared, ch: Change) {
    match ch
    case Nothing => sh' == sh
    case ControlChanged => ControlChange(sh, sh') && ControlInv(sh'.h.control, sh'.h.clock)
    case Created(key, blob) => key !in sh.store && !key.ManifestKey? && sh' == Write(sh, key, blob)
    case Rewritten(id, m) => ManifestWriteOk(w, sh, id, m) && sh' == Write(sh, ManifestKey(id), ManifestBlob(m))
    case Removed(key) => RemoveOk(sh, key) && sh' == Remove(sh, key)
    case Withdrawn(id) => WithdrawOk(sh, id) && sh' == Remove(sh, ManifestKey(id))
    case Booked => BooksGrow(sh, sh') && BooksInv(w, sh')
  }

  /** A process that stands by while another steps keeps its invariant. */
  lemma Bystander(w: World, sh: Shared, sh': Shared, ch: Change, p: Proc, tracked: bool)
    requires LeaseExclusion(sh.h.control, sh.h.clock) && StoreInv(sh) && Allowed(w, sh, sh', ch)
    requires ProcInv(w, sh, p, tracked) && LeaseHeld(sh, p, tracked)
    ensures ProcInv(w, sh', p, tracked)
  {
    match ch
    case Nothing =>
    case ControlChanged => ControlChangeProc(w, sh, sh', p, tracked);
    case Created(key, blob) => CreateProc(w, sh, key, blob, p, tracked);
    case Rewritten(id, m) => ManifestWriteProc(w, sh, id, m, p, tracked);
    case Removed(key) => RemoveProc(w, sh, key, p, tracked);
    case Withdrawn(id) => WithdrawProc(w, sh, id, p, tracked);
    case Booked => BooksProc(w, sh, sh', p, tracked);
  }

  ghost predicate WorldOk(w: World) {
    CollisionFreePlanHash(w) && CollisionFreeDigest(w)
  }

  lemma ControlWriteKeeps(w: World, sh: Shared, sh': Shared, op: ControlOp)
    requires ControlInv(sh.h.control, sh.h.clock) && ControlWrite(w, sh, sh', op)
    ensures Allowed(w, sh, sh', ControlChanged)
  {
    ControlWriteIsChange(w, sh, sh', op);
  }

  /** Every allowed change keeps the invariant of the shared state. */
  lemma AllowedKeepsCore(w: World, sh: Shared, sh': Shared, ch: Change)
    requires CoreInv(w, sh) && Allowed(w, sh, sh', ch)
    ensures CoreInv(w, sh')
  {
    match ch
    case Nothing =>
    case ControlChanged => ControlChangeShared(w, sh, sh');
    case Created(key, blob) => CreateShared(w, sh, key, blob);
    case Rewritten(id, m) => ManifestWriteShared(w, sh, id, m);
    case Removed(key) => RemoveShared(w, sh, key);
    case Withdrawn(id) => WithdrawShared(w, sh, id);
    case Booked =>
  }

  /** A successful renewal leaves the barrier out of its delete phase. */
  lemma RenewalLeavesDeletePhase(w: World, sh: Shared, sh': Shared, op: ControlOp)
    requires ControlWrite(w, sh, sh', op) && (op.RenewLease? || op.AcquireLease?)
    ensures !InDeletePhase(sh')
  {
  }
}
