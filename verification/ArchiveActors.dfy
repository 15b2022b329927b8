/**
 Each kind of actor keeps its own invariant and changes the shared state only in allowed ways.
 */
module ArchiveActors {
  import opened Model
  import opened Checkpoint
  import opened Copying
  import opened GcControl
  import opened GcPlanning
  import opened Archive
  import opened ArchiveSafety
  import opened ArchiveProof

  // ---------------------------------------------------------------- publishers

  /** A swap whose expected version is still current replaces exactly the manifest that was loaded. */
  lemma CurrentIsLoaded(w: World, sh: Shared, id: Identity, ld: Loaded)
    requires CoreInv(w, sh) && LoadedOk(sh, id, ld)
    requires ManifestKey(id) in sh.store && sh.store[ManifestKey(id)].version == ld.version
    ensures HasManifest(sh.store, id, ld.manifest)
    ensures IsRetired(sh.h.control, id) || RefsHold(w, sh.store, ld.manifest)
  {
  }

  lemma AppendWriteOk(w: World, sh: Shared, p: Pub)
    requires CoreInv(w, sh) && PubInv(w, sh, p) && p.pc.PubArmed?
    requires ManifestKey(p.id) in sh.store && sh.store[ManifestKey(p.id)].version == p.loaded.value.version
    ensures ManifestWriteOk(w, sh, p.id, NextManifest(w, p, p.pc.k))
  {
    var m := p.loaded.value.manifest;
    var r := RecordOf(w, p.id, p.entries[p.pc.k..]);
    CurrentIsLoaded(w, sh, p.id, p.loaded.value);
    if !IsRetired(sh.h.control, p.id) {
      var next := NextManifest(w, p, p.pc.k);
      assert next.segments == m.segments + [r];
      assert Intact(w, sh.store, r.key, r.size, r.sha);
      assert RefsHold(w, sh.store, next);
    }
  }

  lemma PubKeeps(w: World, sh: Shared, sh': Shared, p: Pub, p': Pub, a: PubAction) returns (ch: Change)
    requires CoreInv(w, sh) && PubInv(w, sh, p) && PubStep(w, sh, sh', p, p', a)
    ensures PubInv(w, sh', p') && Allowed(w, sh, sh', ch)
  {
    if a.PubInit? {
      ch := PubInitKeeps(w, sh, sh', p, p');
    } else if a.PubRenew1? || a.PubRenew2? || a.PubMigrate? {
      ch := PubRenewKeeps(w, sh, sh', p, RenewLease(Publisher, p.lease, a.now, a.duration));
    } else if a.PubCreate? {
      ch := PubCreateKeeps(w, sh, sh', p, p');
    } else if a.PubSwap? {
      ch := PubSwapKeeps(w, sh, sh', p, p');
    } else if a.PubMigrateSwap? {
      ch := PubMigrateSwapKeeps(w, sh, sh', p, p');
    } else {
      ch := Nothing;
      PubReadKeeps(w, sh, p, p', a);
    }
  }

  /** The steps of a publisher that only read. */
  lemma PubReadKeeps(w: World, sh: Shared, p: Pub, p': Pub, a: PubAction)
    requires StoreInv(sh) && PubInv(w, sh, p) && PubStep(w, sh, sh, p, p', a)
    requires a.PubEnsure? || a.PubLoad? || a.PubCovered? || a.PubPlace? || a.PubRetry?
    ensures PubInv(w, sh, p')
  {
  }

  lemma PubInitKeeps(w: World, sh: Shared, sh': Shared, p: Pub, p': Pub) returns (ch: Change)
    requires StoreInv(sh) && PubInv(w, sh, p) && PubStep(w, sh, sh', p, p', PubInit)
    ensures PubInv(w, sh', p') && Allowed(w, sh, sh', ch)
  {
    ch := Rewritten(p.id, EmptyManifest(p.id));
  }

  lemma PubSwapKeeps(w: World, sh: Shared, sh': Shared, p: Pub, p': Pub) returns (ch: Change)
    requires CoreInv(w, sh) && PubInv(w, sh, p) && PubStep(w, sh, sh', p, p', PubSwap)
    ensures PubInv(w, sh', p') && Allowed(w, sh, sh', ch)
  {
    var next := NextManifest(w, p, p.pc.k);
    AppendWriteOk(w, sh, p);
    ch := Rewritten(p.id, next);
  }

  lemma PubMigrateSwapKeeps(w: World, sh: Shared, sh': Shared, p: Pub, p': Pub) returns (ch: Change)
    requires CoreInv(w, sh) && PubInv(w, sh, p) && PubStep(w, sh, sh', p, p', PubMigrateSwap)
    ensures PubInv(w, sh', p') && Allowed(w, sh, sh', ch)
  {
    CurrentIsLoaded(w, sh, p.id, p.loaded.value);
    var next := Migrate(p.loaded.value.manifest);
    assert RefsHold(w, sh.store, p.loaded.value.manifest) ==> RefsHold(w, sh.store, next);
    ch := Rewritten(p.id, next);
  }

  lemma PubRenewKeeps(w: World, sh: Shared, sh': Shared, p: Pub, op: ControlOp) returns (ch: Change)
    requires ControlInv(sh.h.control, sh.h.clock) && StoreInv(sh) && PubInv(w, sh, p)
    requires op.RenewLease? && ControlWrite(w, sh, sh', op)
    ensures Allowed(w, sh, sh', ch)
    ensures PubInv(w, sh', p) && !InDeletePhase(sh')
  {
    ch := ControlChanged;
    ControlWriteKeeps(w, sh, sh', op);
    RenewalLeavesDeletePhase(w, sh, sh', op);
    Bystander(w, sh, sh', ch, PubProc(p), false);
  }

  lemma PubCreateKeeps(w: World, sh: Shared, sh': Shared, p: Pub, p': Pub) returns (ch: Change)
    requires ControlInv(sh.h.control, sh.h.clock) && StoreInv(sh) && PubInv(w, sh, p)
             && PubStep(w, sh, sh', p, p', PubCreate)
    ensures PubInv(w, sh', p') && Allowed(w, sh, sh', ch)
  {
    var blob := SegmentBlob(p.entries[p.pc.k..]);
    var key := RecordOf(w, p.id, p.entries[p.pc.k..]).key;
    if key in sh.store {
      ch := Nothing;
    } else {
      ch := Created(key, blob);
      Bystander(w, sh, sh', ch, PubProc(p), false);
    }
    assert SegmentHeld(w, sh', p', p'.pc.k);
  }

  // ---------------------------------------------------------------- snapshot publishers

  lemma SnapKeeps(w: World, sh: Shared, sh': Shared, p: Snap, p': Snap, a: SnapAction) returns (ch: Change)
    requires CoreInv(w, sh) && SnapInv(w, sh, p) && SnapStep(w, sh, sh', p, p', a)
    requires LeaseHeld(sh, SnapProc(p), false)
    ensures SnapInv(w, sh', p') && Allowed(w, sh, sh', ch)
  {
    if a.SnapRenew1? || a.SnapRenew2? {
      ch := SnapRenewKeeps(w, sh, sh', p, p', a);
    } else if a.SnapCreate? {
      ch := SnapCreateKeeps(w, sh, sh', p, p');
    } else if a.SnapSwap? {
      ch := SnapSwapKeeps(w, sh, sh', p, p');
    } else {
      ch := Nothing;
      SnapReadKeeps(w, sh, p, p', a);
    }
  }

  /** The steps of a snapshot publisher that only read. */
  lemma SnapReadKeeps(w: World, sh: Shared, p: Snap, p': Snap, a: SnapAction)
    requires StoreInv(sh) && SnapInv(w, sh, p) && SnapStep(w, sh, sh, p, p', a)
    requires a.SnapEnsure? || a.SnapLoad? || a.SnapVerify? || a.SnapRetry?
    ensures SnapInv(w, sh, p')
  {
  }

  lemma SnapRenewKeeps(w: World, sh: Shared, sh': Shared, p: Snap, p': Snap, a: SnapAction) returns (ch: Change)
    requires ControlInv(sh.h.control, sh.h.clock) && StoreInv(sh) && SnapInv(w, sh, p)
    requires SnapStep(w, sh, sh', p, p', a)
    requires (a.SnapRenew1? || a.SnapRenew2?) && LeaseHeld(sh, SnapProc(p), false)
    ensures SnapInv(w, sh', p') && Allowed(w, sh, sh', ch)
  {
    ch := ControlChanged;
    ControlWriteKeeps(w, sh, sh', RenewLease(Publisher, p.lease, a.now, a.duration));
    Bystander(w, sh, sh', ch, SnapProc(p), false);
  }

  lemma SnapCreateKeeps(w: World, sh: Shared, sh': Shared, p: Snap, p': Snap) returns (ch: Change)
    requires ControlInv(sh.h.control, sh.h.clock) && StoreInv(sh) && SnapInv(w, sh, p)
    requires SnapStep(w, sh, sh', p, p', SnapCreate)
    requires LeaseHeld(sh, SnapProc(p), false)
    ensures SnapInv(w, sh', p') && Allowed(w, sh, sh', ch)
  {
    ch := Nothing;
    if p.base.key !in sh.store {
      ch := Created(p.base.key, SnapshotBlob(p.bytes));
      Bystander(w, sh, sh', ch, SnapProc(p), false);
    }
  }

  lemma SnapSwapKeeps(w: World, sh: Shared, sh': Shared, p: Snap, p': Snap) returns (ch: Change)
    requires CoreInv(w, sh) && SnapInv(w, sh, p) && SnapStep(w, sh, sh', p, p', SnapSwap)
    requires LeaseHeld(sh, SnapProc(p), false)
    ensures SnapInv(w, sh', p') && Allowed(w, sh, sh', ch)
  {
    CompactWriteOk(w, sh, p);
    ch := Rewritten(p.id, Compact(p.loaded.value.manifest, p.base).value.manifest);
  }

  lemma CompactWriteOk(w: World, sh: Shared, p: Snap)
    requires CoreInv(w, sh) && SnapInv(w, sh, p) && p.pc.SnapArmed?
    requires LeaseHeld(sh, SnapProc(p), false)
    requires ManifestKey(p.id) in sh.store && sh.store[ManifestKey(p.id)].version == p.loaded.value.version
    ensures ManifestWriteOk(w, sh, p.id, Compact(p.loaded.value.manifest, p.base).value.manifest)
  {
    var m := p.loaded.value.manifest;
    var next := Compact(m, p.base).value.manifest;
    CurrentIsLoaded(w, sh, p.id, p.loaded.value);
    LiveLeaseExcludes(sh, p.lease);
    var j := CompactCuts(p.id, m, p.base);
    forall i | 0 <= i < |next.segments| && RefsHold(w, sh.store, m)
      ensures Intact(w, sh.store, next.segments[i].key, next.segments[i].size, next.segments[i].sha)
    {
      assert next.segments[i] == m.segments[j + i];
    }
  }

  // ---------------------------------------------------------------- readers

  lemma ReadKeeps(w: World, sh: Shared, sh': Shared, p: Read, p': Read, a: ReadAction, tracked: bool)
    returns (ch: Change)
    requires ControlInv(sh.h.control, sh.h.clock) && StoreInv(sh) && LiveInv(w, sh) && ReadInv(w, sh, p, tracked)
             && ReadStep(w, sh, sh', p, p', a)
    requires LeaseHeld(sh, ReadProc(p), tracked)
    ensures ReadInv(w, sh', p', tracked) && Allowed(w, sh, sh', ch)
  {
    ch := Nothing;
    match a
    case ReadLease(now, duration) =>
      ch := ControlChanged;
      ControlWriteKeeps(w, sh, sh', AcquireLease(Reader, p.lease, now, duration));
      Bystander(w, sh, sh', ch, ReadProc(p), tracked);
    case ReadRenew(now, duration) =>
      ch := ControlChanged;
      ControlWriteKeeps(w, sh, sh', RenewLease(Reader, p.lease, now, duration));
      Bystander(w, sh, sh', ch, ReadProc(p), tracked);
    case ReadEnsure =>
    case ReadManifest =>
    case ReadBase =>
    case ReadSegment =>
    case ReadFinish =>
  }

  // ---------------------------------------------------------------- copiers

  lemma CopyControlKeeps(w: World, sh: Shared, sh': Shared, p: Copier, op: ControlOp) returns (ch: Change)
    requires ControlInv(sh.h.control, sh.h.clock) && StoreInv(sh) && CopyInv(w, sh, p) && ControlWrite(w, sh, sh', op)
    requires LeaseHeld(sh, CopyProc(p), false)
    ensures CopyInv(w, sh', p) && Allowed(w, sh, sh', ch)
  {
    ch := ControlChanged;
    ControlWriteKeeps(w, sh, sh', op);
    Bystander(w, sh, sh', ch, CopyProc(p), false);
  }

  /** Leases taken, and the registration that ends a copy. */
  lemma CopyMoves(w: World, sh: Shared, p: Copier, p': Copier)
    requires CopyInv(w, sh, p)
    requires || (p.pc.CopyCalled? && SameLineage(p.source, p.target) && p' == p.(pc := CopyHalfLeased))
             || (p.pc.CopyHalfLeased? && p' == p.(pc := CopyLeased))
             || ((p.pc.CopyFound? || p.pc.CopyConfirmed?) && p' == p.(pc := CopyDone(p.pc.result, p.pc.CopyConfirmed?)))
    ensures CopyInv(w, sh, p')
  {
  }

  /** Steps of a copier on the control object. */
  lemma CopyOnControl(w: World, sh: Shared, sh': Shared, p: Copier, p': Copier, a: CopyAction) returns (ch: Change)
    requires ControlInv(sh.h.control, sh.h.clock) && StoreInv(sh) && CopyInv(w, sh, p) && CopyStep(w, sh, sh', p, p', a)
    requires LeaseHeld(sh, CopyProc(p), false)
    requires a.CopyLeaseSource? || a.CopyLeaseTarget? || a.CopyRenew? || a.CopyRegister?
    ensures CopyInv(w, sh', p') && Allowed(w, sh, sh', ch)
  {
    match a
    case CopyLeaseSource(now, duration) =>
      ch := CopyControlKeeps(w, sh, sh', p, AcquireLease(Reader, p.sourceLease, now, duration));
      CopyMoves(w, sh', p, p');
    case CopyLeaseTarget(now, duration) =>
      ch := CopyControlKeeps(w, sh, sh', p, AcquireLease(Publisher, p.targetLease, now, duration));
      CopyMoves(w, sh', p, p');
    case CopyRenew(kind, now, duration) =>
      ch := CopyControlKeeps(w, sh, sh', p,
                             RenewLease(kind, if kind == Reader then p.sourceLease else p.targetLease, now, duration));
    case CopyRegister(now) =>
      ch := CopyControlKeeps(w, sh, sh', p, Register(p.target, now));
      CopyMoves(w, sh', p, p');
  }

  /** The copier's own restore of the source. */
  lemma CopyRestoreKeeps(w: World, sh: Shared, sh': Shared, p: Copier, p': Copier, read: ReadAction)
    returns (ch: Change)
    requires ControlInv(sh.h.control, sh.h.clock) && StoreInv(sh) && CopyInv(w, sh, p)
             && CopyStep(w, sh, sh', p, p', CopyRestore(read))
    ensures CopyInv(w, sh', p') && Allowed(w, sh, sh', ch)
  {
    if read.ReadRenew? {
      ch := CopyControlKeeps(w, sh, sh', p, RenewLease(Reader, p.sourceLease, read.now, read.duration));
    } else {
      ch := Nothing;
    }
  }

  /** Steps of a copier that only read: up to its own restore of the source, and after. */
  lemma CopyLoadKeeps(w: World, sh: Shared, p: Copier, p': Copier, a: CopyAction)
    requires StoreInv(sh) && CopyInv(w, sh, p) && CopyStep(w, sh, sh, p, p', a)
    requires a.CopySeeSource? || a.CopySeeTarget? || a.CopyLoad? || a.CopyStart?
    ensures CopyInv(w, sh, p')
  {
  }

  lemma CopyGetKeeps(w: World, sh: Shared, p: Copier, p': Copier)
    requires CopyInv(w, sh, p) && CopyStep(w, sh, sh, p, p', CopyGet)
    ensures CopyInv(w, sh, p')
  {
  }

  lemma CopyLookKeeps(w: World, sh: Shared, p: Copier, p': Copier, a: CopyAction)
    requires CopyInv(w, sh, p) && CopyStep(w, sh, sh, p, p', a) && (a.CopyLook? || a.CopyAdopt?)
    ensures CopyInv(w, sh, p')
  {
    assert p' == p.(pc := p'.pc) && (p'.pc.CopyReady? || p'.pc.CopyFound?);
  }

  lemma CopyVerifyKeeps(w: World, sh: Shared, p: Copier, p': Copier)
    requires CopyInv(w, sh, p) && CopyStep(w, sh, sh, p, p', CopyVerify)
    ensures CopyInv(w, sh, p')
  {
    var xs := ParcelsOf(p);
    assert Intact(w, sh.store, xs[p.pc.n].to, xs[p.pc.n].size, xs[p.pc.n].sha);
  }

  /** An unchanged source means that the copier restored the very manifest it copied. */
  lemma CopyRecheckKeeps(w: World, sh: Shared, p: Copier, p': Copier)
    requires CopyInv(w, sh, p) && CopyStep(w, sh, sh, p, p', CopyRecheck)
    ensures CopyInv(w, sh, p')
  {
  }

  lemma CopyPlacedNow(w: World, sh: Shared, p: Copier, p': Copier)
    requires CopyInv(w, sh, p) && p.pc.CopyGot? && p' == p.(pc := CopyPlaced(p.pc.result, p.pc.n))
    ensures CopyInv(w, sh, p')
  {
  }

  lemma CopyPutKeeps(w: World, sh: Shared, sh': Shared, p: Copier, p': Copier) returns (ch: Change)
    requires StoreInv(sh) && CopyInv(w, sh, p) && CopyStep(w, sh, sh', p, p', CopyPut)
    ensures CopyInv(w, sh', p') && Allowed(w, sh, sh', ch)
  {
    ch := Nothing;
    var key := ParcelsOf(p)[p.pc.n].to;
    ParcelKey(p.target, p.loaded.value.manifest, p.pc.n);
    if key !in sh.store {
      ch := Created(key, p.pc.blob);
      CopierAmidWrites(w, sh, sh', p);
    }
    CopyPlacedNow(w, sh', p, p');
  }

  /** The target's manifest is there, at this version, and the barrier is not deleting. */
  lemma CopyPublishedNow(w: World, sh: Shared, p: Copier, p': Copier, version: nat)
    requires CopyInv(w, sh, p) && p.pc.CopyReady? && p' == p.(pc := CopyPublished(p.pc.result, version))
    requires StoredAs(sh.store, p.target, Loaded(Goods(p), version)) && version < sh.version && !InDeletePhase(sh)
    ensures CopyInv(w, sh, p')
  {
  }

  lemma CopyPublishOk(w: World, sh: Shared, p: Copier)
    requires CopyInv(w, sh, p) && p.pc.CopyReady? && ManifestKey(p.target) !in sh.store
    ensures ManifestWriteOk(w, sh, p.target, Goods(p))
  {
    ParcelsAreRefs(w, sh.store, p.target, p.loaded.value.manifest);
  }

  lemma CopyPublishKeeps(w: World, sh: Shared, sh': Shared, p: Copier, p': Copier) returns (ch: Change)
    requires ControlInv(sh.h.control, sh.h.clock) && StoreInv(sh) && CopyInv(w, sh, p)
             && CopyStep(w, sh, sh', p, p', CopyPublish)
    requires LeaseHeld(sh, CopyProc(p), false)
    ensures CopyInv(w, sh', p') && Allowed(w, sh, sh', ch)
  {
    LiveLeaseExcludes(sh, p.targetLease);
    if ManifestKey(p.target) in sh.store {
      ch := Nothing;
      CopyPublishedNow(w, sh, p, p', sh.store[ManifestKey(p.target)].version);
    } else {
      CopyPublishOk(w, sh, p);
      ch := Rewritten(p.target, Goods(p));
      Bystander(w, sh, sh', ch, CopyProc(p), false);
      CopyPublishedNow(w, sh', p, p', sh.version);
    }
  }

  lemma CopyWithdrawKeeps(w: World, sh: Shared, sh': Shared, p: Copier, p': Copier) returns (ch: Change)
    requires ControlInv(sh.h.control, sh.h.clock) && StoreInv(sh) && CopyInv(w, sh, p)
             && CopyStep(w, sh, sh', p, p', CopyWithdraw)
    ensures CopyInv(w, sh', p') && Allowed(w, sh, sh', ch)
  {
    ch := if Withdraws(sh, p) then Withdrawn(p.target) else Nothing;
    if Withdraws(sh, p) { Bystander(w, sh, sh', ch, CopyProc(p), false); }
    CopyEnds(w, sh', p, p');
  }

  lemma CopyEnds(w: World, sh: Shared, p: Copier, p': Copier)
    requires CopyInv(w, sh, p) && p' == p.(pc := CopyQuiet)
    ensures CopyInv(w, sh, p')
  {
  }

  lemma CopyOnStore(w: World, sh: Shared, sh': Shared, p: Copier, p': Copier, a: CopyAction) returns (ch: Change)
    requires ControlInv(sh.h.control, sh.h.clock) && StoreInv(sh) && CopyInv(w, sh, p) && CopyStep(w, sh, sh', p, p', a)
    requires LeaseHeld(sh, CopyProc(p), false)
    requires a.CopyPut? || a.CopyPublish? || a.CopyWithdraw?
    ensures CopyInv(w, sh', p') && Allowed(w, sh, sh', ch)
  {
    match a
    case CopyPut => ch := CopyPutKeeps(w, sh, sh', p, p');
    case CopyPublish => ch := CopyPublishKeeps(w, sh, sh', p, p');
    case CopyWithdraw => ch := CopyWithdrawKeeps(w, sh, sh', p, p');
  }

  /** The remaining steps of a copier change nothing shared. */
  lemma CopyLooks(w: World, sh: Shared, sh': Shared, p: Copier, p': Copier, a: CopyAction)
    requires StoreInv(sh) && CopyInv(w, sh, p) && CopyStep(w, sh, sh', p, p', a)
    requires !a.CopyLeaseSource? && !a.CopyLeaseTarget? && !a.CopyRenew? && !a.CopyRegister? && !a.CopyRestore?
    requires !a.CopyPut? && !a.CopyPublish? && !a.CopyWithdraw?
    ensures sh' == sh && CopyInv(w, sh, p')
  {
    if a.CopyVerify? {
      CopyVerifyKeeps(w, sh, p, p');
    } else if a.CopyRecheck? {
      CopyRecheckKeeps(w, sh, p, p');
    } else if a.CopyGet? {
      CopyGetKeeps(w, sh, p, p');
    } else if a.CopyLook? || a.CopyAdopt? {
      CopyLookKeeps(w, sh, p, p', a);
    } else {
      CopyLoadKeeps(w, sh, p, p', a);
    }
  }

  lemma CopyKeeps(w: World, sh: Shared, sh': Shared, p: Copier, p': Copier, a: CopyAction) returns (ch: Change)
    requires ControlInv(sh.h.control, sh.h.clock) && StoreInv(sh) && CopyInv(w, sh, p) && CopyStep(w, sh, sh', p, p', a)
    requires LeaseHeld(sh, CopyProc(p), false)
    ensures CopyInv(w, sh', p') && Allowed(w, sh, sh', ch)
  {
    if a.CopyLeaseSource? || a.CopyLeaseTarget? || a.CopyRenew? || a.CopyRegister? {
      ch := CopyOnControl(w, sh, sh', p, p', a);
    } else if a.CopyRestore? {
      ch := CopyRestoreKeeps(w, sh, sh', p, p', a.read);
    } else if a.CopyPut? || a.CopyPublish? || a.CopyWithdraw? {
      ch := CopyOnStore(w, sh, sh', p, p', a);
    } else {
      ch := Nothing;
      CopyLooks(w, sh, sh', p, p', a);
    }
  }

  // ---------------------------------------------------------------- planners

  lemma PlannerKeeps(w: World, sh: Shared, sh': Shared, p: Planner, p': Planner, a: PlanAction) returns (ch: Change)
    requires CollisionFreeDigest(w) && CoreInv(w, sh) && PlannerInv(sh, p) && PlanStep(w, sh, sh', p, p', a)
    ensures PlannerInv(sh', p') && Allowed(w, sh, sh', ch)
  {
    ch := Nothing;
    match a
    case PlanReadRoot =>
    case PlanPage(id, metas) =>
    case PlanFinish =>
      ch := Booked;
      PlanFinishKeeps(w, sh, p);
  }

  lemma PlanFinishKeeps(w: World, sh: Shared, p: Planner)
    requires CollisionFreeDigest(w) && CoreInv(w, sh) && PlannerInv(sh, p) && p.root.Some?
    requires PlanGc(w, p.policy, p.control, p.root.value, p.listings, p.now).Ok?
    requires PlanGc(w, p.policy, p.control, p.root.value, p.listings, p.now).value.hash !in sh.plans
    ensures var plan := PlanGc(w, p.policy, p.control, p.root.value, p.listings, p.now).value;
            BooksInv(w, sh.(plans := sh.plans[plan.hash := plan]))
  {
    var plan := PlanGc(w, p.policy, p.control, p.root.value, p.listings, p.now).value;
    PlanIsSound(w, p.policy, p.control, p.root.value, p.listings, p.now);
    forall c | c in plan.candidates ensures c.version < sh.version {
      var m := Meta(c.key, c.version, c.modified);
      assert m in ListingOf(p.listings, c.generation);
      assert c.generation in p.listings && m in p.listings[c.generation];
    }
    AddPlan(w, sh, plan);
  }

  // ---------------------------------------------------------------- executors

  lemma ExecControlKeeps(w: World, sh: Shared, sh': Shared, p: Exec, op: ControlOp) returns (ch: Change)
    requires ControlInv(sh.h.control, sh.h.clock) && StoreInv(sh) && ExecInv(w, sh, p) && ControlWrite(w, sh, sh', op)
    ensures ExecInv(w, sh', p) && Allowed(w, sh, sh', ch)
  {
    ch := ControlChanged;
    ControlWriteKeeps(w, sh, sh', op);
    Bystander(w, sh, sh', ch, ExecProc(p), false);
  }

  /** Deleting a candidate is allowed when `MayDelete` says so. */
  lemma CandidateRemoveOk(w: World, sh: Shared, p: Exec)
    requires CoreInv(w, sh) && ExecInv(w, sh, p) && p.pc.ExecSweeping?
    requires |p.pc.results| < |sh.plans[p.planHash].candidates|
    requires ValidateFence(sh.h.control, sh.plans[p.planHash], p.now).Ok?
    requires MayDelete(w, sh, p)
    ensures RemoveOk(sh, sh.plans[p.planHash].candidates[|p.pc.results|].key)
  {
    var plan := sh.plans[p.planHash];
    var c := plan.candidates[|p.pc.results|];
    assert c in plan.candidates;
    assert SoundPlan(w, plan);
    if c.generation == plan.root {
      var root := ManifestKey(plan.root);
      assert RootFenced(w, sh, plan);
      var m := sh.store[root].blob.manifest;
      assert sh.store[root].blob == ManifestBlob(m);
    } else {
      assert RetiredBy(sh.h.control, c.generation, p.planHash);
    }
  }

  lemma ExecFenceKeeps(w: World, sh: Shared, sh': Shared, p: Exec, p': Exec) returns (ch: Change)
    requires CoreInv(w, sh) && ExecInv(w, sh, p) && ExecStep(w, sh, sh', p, p', ExecFence)
    ensures ExecInv(w, sh', p') && Allowed(w, sh, sh', ch)
  {
    var id := sh.plans[p.planHash].root;
    var m := sh.store[ManifestKey(id)].blob.manifest;
    assert sh.store[ManifestKey(id)].blob == ManifestBlob(m);
    ch := Rewritten(id, m);
  }

  /** A fenced executor's view of the root survives the retirement write, which keeps the barrier. */
  lemma ExecRetireKeeps(w: World, sh: Shared, sh': Shared, p: Exec) returns (ch: Change)
    requires CoreInv(w, sh) && ExecInv(w, sh, p) && p.pc.ExecFenced?
    requires ControlWrite(w, sh, sh', RetirePlan(sh.plans[p.planHash], p.now))
    ensures ExecInv(w, sh', p.(pc := ExecSweeping([]))) && Allowed(w, sh, sh', ch)
  {
    var plan := sh.plans[p.planHash];
    ch := ExecControlKeeps(w, sh, sh', p, RetirePlan(plan, p.now));
    SweptAreRetired(w, sh.h.control, plan, p.now);
    FencedMaySweep(w, sh', p);
  }

  lemma FencedMaySweep(w: World, sh: Shared, p: Exec)
    requires ExecInv(w, sh, p) && p.pc.ExecFenced?
    requires forall id :: id in sh.plans[p.planHash].swept ==> RetiredBy(sh.h.control, id, p.planHash)
    ensures ExecInv(w, sh, p.(pc := ExecSweeping([])))
  {
  }

  /** Taking the barrier, entering its delete phase, and clearing it. */
  lemma BarrierMoves(w: World, sh: Shared, p: Exec, p': Exec)
    requires ExecInv(w, sh, p)
    requires (p.pc.ExecPlanned? && p' == p.(pc := ExecHolding))
             || (p.pc.ExecHolding? && p' == p.(pc := ExecEntered))
             || (p.pc.ExecReported? && p' == p.(pc := ExecDone(p.pc.report)))
    ensures ExecInv(w, sh, p')
  {
  }

  lemma SweptAreRetired(w: World, c: Control, plan: Plan, now: nat)
    requires UniqueIdentities(c.generations) && ApplyRetire(c, plan, now).Ok?
    ensures forall id :: id in plan.swept ==> RetiredBy(ApplyRetire(c, plan, now).value, id, plan.hash)
  {
    RetireAllFinds(c.generations, plan.swept, plan.hash, now);
  }

  lemma ResultsMatchMore(sh: Shared, sh': Shared, planHash: Hash, results: seq<Evidence>, e: Evidence)
    requires planHash in sh.plans && sh'.plans == sh.plans && ResultsMatch(sh, planHash, results)
    requires forall x :: x in sh.evidence ==> x in sh'.evidence && sh'.evidence[x] == sh.evidence[x]
    requires |results| < |sh.plans[planHash].candidates|
    requires var c := sh.plans[planHash].candidates[|results|];
             && e.key == c.key && e.version == c.version
             && (planHash, c.key) in sh'.evidence && sh'.evidence[(planHash, c.key)] == e
    ensures ResultsMatch(sh', planHash, results + [e])
  {
  }

  /** The next result is on record. */
  lemma ExecRecordedNow(w: World, sh: Shared, p: Exec, e: Evidence)
    requires ExecInv(w, sh, p) && p.pc.ExecDeleted?
    requires ResultsMatch(sh, p.planHash, p.pc.results + [e])
    ensures ExecInv(w, sh, p.(pc := ExecSweeping(p.pc.results + [e])))
  {
  }

  lemma NewEvidence(w: World, sh: Shared, p: Exec, e: Evidence)
    requires BooksInv(w, sh) && ExecInv(w, sh, p) && p.pc.ExecDeleted?
    requires var c := sh.plans[p.planHash].candidates[|p.pc.results|];
             e.planHash == p.planHash && e.key == c.key && e.version == c.version && (p.planHash, c.key) !in sh.evidence
    ensures var sh' := sh.(evidence := sh.evidence[(p.planHash, e.key) := e]);
            BooksGrow(sh, sh') && BooksInv(w, sh') && ExecInv(w, sh', p)
  {
    var sh' := sh.(evidence := sh.evidence[(p.planHash, e.key) := e]);
    AddEvidence(w, sh, e);
    BooksExec(w, sh, sh', p);
  }

  lemma ExecRecordAgain(w: World, sh: Shared, sh': Shared, p: Exec, p': Exec)
    requires ExecInv(w, sh, p) && ExecStep(w, sh, sh', p, p', ExecRecord)
    requires (p.planHash, sh.plans[p.planHash].candidates[|p.pc.results|].key) in sh.evidence
    ensures sh' == sh && ExecInv(w, sh, p')
  {
    var e := p'.pc.results[|p.pc.results|];
    ResultsMatchMore(sh, sh, p.planHash, p.pc.results, e);
    ExecRecordedNow(w, sh, p, e);
  }

  lemma ExecRecordFirst(w: World, sh: Shared, sh': Shared, p: Exec, p': Exec)
    requires BooksInv(w, sh) && ExecInv(w, sh, p) && ExecStep(w, sh, sh', p, p', ExecRecord)
    requires (p.planHash, sh.plans[p.planHash].candidates[|p.pc.results|].key) !in sh.evidence
    ensures Allowed(w, sh, sh', Booked) && ExecInv(w, sh', p')
  {
    var e := p'.pc.results[|p.pc.results|];
    NewEvidence(w, sh, p, e);
    ResultsMatchMore(sh, sh', p.planHash, p.pc.results, e);
    ExecRecordedNow(w, sh', p, e);
  }

  lemma ExecRecordKeeps(w: World, sh: Shared, sh': Shared, p: Exec, p': Exec) returns (ch: Change)
    requires BooksInv(w, sh) && ExecInv(w, sh, p) && ExecStep(w, sh, sh', p, p', ExecRecord)
    ensures ExecInv(w, sh', p') && Allowed(w, sh, sh', ch)
  {
    if (p.planHash, sh.plans[p.planHash].candidates[|p.pc.results|].key) in sh.evidence {
      ch := Nothing;
      ExecRecordAgain(w, sh, sh', p, p');
    } else {
      ch := Booked;
      ExecRecordFirst(w, sh, sh', p, p');
    }
  }

  lemma ExecSkipKeeps(w: World, sh: Shared, p: Exec, p': Exec)
    requires ExecInv(w, sh, p) && ExecStep(w, sh, sh, p, p', ExecSkip)
    ensures ExecInv(w, sh, p')
  {
    ResultsMatchMore(sh, sh, p.planHash, p.pc.results, p'.pc.results[|p.pc.results|]);
  }

  /** The report is there. */
  lemma ExecReportedNow(w: World, sh: Shared, p: Exec, report: Report)
    requires ExecInv(w, sh, p) && p.pc.ExecSweeping? && p.planHash in sh.reports && sh.reports[p.planHash] == report
    ensures ExecInv(w, sh, p.(pc := ExecReported(report)))
  {
  }

  lemma ExecReportKeeps(w: World, sh: Shared, sh': Shared, p: Exec, p': Exec) returns (ch: Change)
    requires BooksInv(w, sh) && ExecInv(w, sh, p) && ExecStep(w, sh, sh', p, p', ExecReport)
    ensures ExecInv(w, sh', p') && Allowed(w, sh, sh', ch)
  {
    if p.planHash in sh.reports {
      ch := Nothing;
    } else {
      ch := Booked;
      AddReport(w, sh, p'.pc.report);
      BooksExec(w, sh, sh', p);
    }
    ExecReportedNow(w, sh', p, p'.pc.report);
  }

  /** Reading the root manifest with the planned content, before the fencing write or after losing it. */
  lemma ExecRootReadKeeps(w: World, sh: Shared, p: Exec, p': Exec, a: ExecAction)
    requires StoreInv(sh) && ExecInv(w, sh, p) && ExecStep(w, sh, sh, p, p', a)
    requires a.ExecGet? || a.ExecContend? || a.ExecRecheck?
    ensures ExecInv(w, sh, p')
  {
  }

  /** The steps of an executor that only read. */
  lemma ExecReadKeeps(w: World, sh: Shared, p: Exec, p': Exec, a: ExecAction)
    requires StoreInv(sh) && ExecInv(w, sh, p) && ExecStep(w, sh, sh, p, p', a)
    requires a.ExecLoad? || a.ExecGet? || a.ExecContend? || a.ExecRecheck? || a.ExecAdopt?
    ensures ExecInv(w, sh, p')
  {
    if a.ExecGet? || a.ExecContend? || a.ExecRecheck? { ExecRootReadKeeps(w, sh, p, p', a); }
  }

  lemma ExecDeleteKeeps(w: World, sh: Shared, sh': Shared, p: Exec, p': Exec) returns (ch: Change)
    requires CoreInv(w, sh) && ExecInv(w, sh, p) && ExecStep(w, sh, sh', p, p', ExecDelete)
    requires MayDelete(w, sh, p)
    ensures ExecInv(w, sh', p') && Allowed(w, sh, sh', ch)
  {
    var c := sh.plans[p.planHash].candidates[|p.pc.results|];
    assert c in sh.plans[p.planHash].candidates && c.version < sh.version;
    ch := Nothing;
    if c.key in sh.store {
      ch := Removed(c.key);
      CandidateRemoveOk(w, sh, p);
      RemoveExec(w, sh, c.key, p);
      ExecDeletedNow(w, sh', p, Outcome.Deleted);
    } else {
      ExecDeletedNow(w, sh, p, AlreadyMissing);
    }
  }

  /** The next candidate is gone. */
  lemma ExecDeletedNow(w: World, sh: Shared, p: Exec, outcome: Outcome)
    requires ExecInv(w, sh, p) && p.pc.ExecSweeping? && |p.pc.results| < |sh.plans[p.planHash].candidates|
    requires var c := sh.plans[p.planHash].candidates[|p.pc.results|];
             c.version < sh.version && GoneAt(sh.store, c.key, c.version)
    ensures ExecInv(w, sh, p.(pc := ExecDeleted(p.pc.results, outcome)))
  {
  }

  /** Steps of an executor on the control object. */
  lemma ExecOnControl(w: World, sh: Shared, sh': Shared, p: Exec, p': Exec, a: ExecAction) returns (ch: Change)
    requires CoreInv(w, sh) && ExecInv(w, sh, p) && ExecStep(w, sh, sh', p, p', a)
    requires a.ExecBarrier? || a.ExecEnter? || a.ExecRetire? || a.ExecClear?
    ensures ExecInv(w, sh', p') && Allowed(w, sh, sh', ch)
  {
    var plan := sh.plans[p.planHash];
    match a
    case ExecBarrier =>
      ch := ExecControlKeeps(w, sh, sh', p, AcquireBarrier(plan, p.now));
      BarrierMoves(w, sh', p, p');
    case ExecEnter =>
      ch := ExecControlKeeps(w, sh, sh', p, EnterDelete(plan, p.now));
      BarrierMoves(w, sh', p, p');
    case ExecRetire =>
      ch := ExecRetireKeeps(w, sh, sh', p);
    case ExecClear =>
      ch := ExecControlKeeps(w, sh, sh', p, ClearBarrier(plan));
      BarrierMoves(w, sh', p, p');
  }

  /** Steps of an executor on objects and books. */
  lemma ExecOnStore(w: World, sh: Shared, sh': Shared, p: Exec, p': Exec, a: ExecAction) returns (ch: Change)
    requires CoreInv(w, sh) && ExecInv(w, sh, p) && ExecStep(w, sh, sh', p, p', a)
    requires a.ExecFence? || a.ExecDelete? || a.ExecRecord? || a.ExecReport?
    requires a.ExecDelete? ==> MayDelete(w, sh, p)
    ensures ExecInv(w, sh', p') && Allowed(w, sh, sh', ch)
  {
    match a
    case ExecFence => ch := ExecFenceKeeps(w, sh, sh', p, p');
    case ExecDelete => ch := ExecDeleteKeeps(w, sh, sh', p, p');
    case ExecRecord => ch := ExecRecordKeeps(w, sh, sh', p, p');
    case ExecReport => ch := ExecReportKeeps(w, sh, sh', p, p');
  }

  lemma ExecKeeps(w: World, sh: Shared, sh': Shared, p: Exec, p': Exec, a: ExecAction) returns (ch: Change)
    requires CoreInv(w, sh) && ExecInv(w, sh, p) && ExecStep(w, sh, sh', p, p', a)
    requires a.ExecDelete? ==> MayDelete(w, sh, p)
    ensures ExecInv(w, sh', p') && Allowed(w, sh, sh', ch)
  {
    if a.ExecBarrier? || a.ExecEnter? || a.ExecRetire? || a.ExecClear? {
      ch := ExecOnControl(w, sh, sh', p, p', a);
    } else if a.ExecFence? || a.ExecDelete? || a.ExecRecord? || a.ExecReport? {
      ch := ExecOnStore(w, sh, sh', p, p', a);
    } else {
      ch := Nothing;
      assert sh' == sh;
      if a.ExecSkip? { ExecSkipKeeps(w, sh, p, p'); } else { ExecReadKeeps(w, sh, p, p', a); }
    }
  }
}
