/**
 Safety of the archive under every interleaving: what a manifest in force references is in the store,
 intact; a reader with a live lease finds everything it needs; collection is resumable and its report
 unique.
 */
module ArchiveSafety {
  import opened Model
  import opened Checkpoint
  import opened Copying
  import opened GcControl
  import opened GcHistory
  import opened GcPlanning
  import opened Archive

  // ---------------------------------------------------------------- the invariant

  predicate GoneAt(store: Store, key: Key, version: nat) {
    !(key in store && store[key].version == version)
  }

  ghost predicate StoreInv(sh: Shared) {
    && (forall k :: k in sh.store ==> sh.store[k].version < sh.version)
    && (forall id :: ManifestKey(id) in sh.store ==>
          && sh.store[ManifestKey(id)].blob.ManifestBlob?
          && ValidManifest(id, sh.store[ManifestKey(id)].blob.manifest))
    && sh.tenureStart <= sh.version
  }

  /** The manifest of every generation that is not retired has all it references. */
  ghost predicate LiveInv(w: World, sh: Shared) {
    forall id :: ManifestKey(id) in sh.store && !IsRetired(sh.h.control, id)
                 && sh.store[ManifestKey(id)].blob.ManifestBlob?
      ==> RefsHold(w, sh.store, sh.store[ManifestKey(id)].blob.manifest)
  }

  ghost predicate PlansInv(w: World, sh: Shared) {
    forall x :: x in sh.plans ==>
      && sh.plans[x].hash == x
      && SoundPlan(w, sh.plans[x])
      && forall c :: c in sh.plans[x].candidates ==> c.version < sh.version
  }

  ghost predicate EvidenceInv(sh: Shared) {
    forall at :: at in sh.evidence ==>
      && sh.evidence[at].planHash == at.0 && sh.evidence[at].key == at.1
      && sh.evidence[at].version < sh.version
      && GoneAt(sh.store, at.1, sh.evidence[at].version)
  }

  /** The results name the plan's candidates, in order, each with the evidence on record. */
  ghost predicate ResultsMatch(sh: Shared, planHash: Hash, results: seq<Evidence>)
    requires planHash in sh.plans
  {
    var cs := sh.plans[planHash].candidates;
    && |results| <= |cs|
    && forall i :: 0 <= i < |results| ==>
         && results[i].key == cs[i].key && results[i].version == cs[i].version
         && (planHash, cs[i].key) in sh.evidence && sh.evidence[(planHash, cs[i].key)] == results[i]
  }

  ghost predicate ReportsInv(sh: Shared) {
    forall x :: x in sh.reports ==>
      && x in sh.plans
      && sh.reports[x].planHash == x
      && |sh.reports[x].results| == |sh.plans[x].candidates|
      && ResultsMatch(sh, x, sh.reports[x].results)
  }

  ghost predicate BooksInv(w: World, sh: Shared) {
    PlansInv(w, sh) && EvidenceInv(sh) && ReportsInv(sh)
  }

  /** What the actors rely on. */
  ghost predicate CoreInv(w: World, sh: Shared) {
    ControlInv(sh.h.control, sh.h.clock) && StoreInv(sh) && LiveInv(w, sh) && BooksInv(w, sh)
  }

  ghost predicate SharedInv(w: World, sh: Shared) {
    HistoryInv(w, sh.h) && CoreInv(w, sh)
  }

  // ---- processes

  /** A loaded manifest is what its version stands for; a stored version never falls below it. */
  ghost predicate LoadedOk(sh: Shared, id: Identity, ld: Loaded) {
    && ld.version < sh.version
    && ValidManifest(id, ld.manifest)
    && (ManifestKey(id) in sh.store ==>
          && ld.version <= sh.store[ManifestKey(id)].version
          && (sh.store[ManifestKey(id)].version == ld.version ==> HasManifest(sh.store, id, ld.manifest)))
  }

  /** The stored manifest is no longer the loaded one. */
  predicate Stale(sh: Shared, id: Identity, ld: Loaded) {
    !(ManifestKey(id) in sh.store && sh.store[ManifestKey(id)].version == ld.version)
  }

  /** The segment object a publisher has created. */
  predicate SegmentHeld(w: World, sh: Shared, p: Pub, k: nat)
    requires k < |p.entries|
  {
    var key := RecordOf(w, p.id, p.entries[k..]).key;
    key in sh.store && sh.store[key].blob == SegmentBlob(p.entries[k..])
  }

  predicate PubWriting(pc: PubPc) {
    pc.PubRenewed? || pc.PubCreated? || pc.PubArmed? || pc.PubMigrating?
  }

  ghost predicate PubInv(w: World, sh: Shared, p: Pub) {
    && (p.loaded.Some? ==> LoadedOk(sh, p.id, p.loaded.value))
    && (p.born ==> IsRetired(sh.h.control, p.id))
    && (!p.pc.PubCalled? && !p.pc.PubQuiet? ==> !p.born)
    && (PubWriting(p.pc) || p.pc.PubPlaced? ==> p.loaded.Some?)
    && (PubWriting(p.pc) && InDeletePhase(sh) ==> p.loaded.value.version < sh.tenureStart)
    && (p.pc.PubPlaced? || p.pc.PubRenewed? || p.pc.PubCreated? || p.pc.PubArmed? ==>
          p.pc.k < |p.entries| && Chained(w, p.id, p.entries[p.pc.k..], p.loaded.value.manifest.tip))
    && (p.pc.PubCreated? || p.pc.PubArmed? ==>
          || IsRetired(sh.h.control, p.id)
          || Stale(sh, p.id, p.loaded.value)
          || SegmentHeld(w, sh, p, p.pc.k))
    && (p.pc.PubArmed? ==> ValidManifest(p.id, NextManifest(w, p, p.pc.k)))
    && (p.pc.PubMigrating? ==> ValidManifest(p.id, Migrate(p.loaded.value.manifest)))
  }

  predicate HasLiveLease(sh: Shared, lease: nat) {
    exists l :: l in sh.h.control.leases && l.id == lease && l.expires > sh.h.clock
  }

  ghost predicate SnapInv(w: World, sh: Shared, p: Snap) {
    && (p.loaded.Some? ==> LoadedOk(sh, p.id, p.loaded.value))
    && (p.born ==> IsRetired(sh.h.control, p.id))
    && (!p.pc.SnapCalled? && !p.pc.SnapQuiet? ==> !p.born && ValidSnapshotBase(p.id, p.base))
    && (p.pc.SnapReady? || p.pc.SnapArmed? ==>
          Intact(w, sh.store, p.base.key, p.base.size, p.base.digest))
    && (p.pc.SnapArmed? ==>
          && p.loaded.Some?
          && Compact(p.loaded.value.manifest, p.base).Ok?
          && Compact(p.loaded.value.manifest, p.base).value.Replaced?
          && ValidManifest(p.id, Compact(p.loaded.value.manifest, p.base).value.manifest))
  }

  predicate ReadProtected(pc: ReadPc) {
    pc.ReadLeased? || pc.ReadChecked? || ReadHolding(pc)
  }

  ghost predicate ReadInv(w: World, sh: Shared, p: Read, tracked: bool) {
    && (p.born ==> IsRetired(sh.h.control, p.id))
    && (p.born ==> p.pc.ReadQuiet? || p.pc.ReadCalled? || p.pc.ReadLeased?)
    && (tracked && (p.pc.ReadChecked? || ReadHolding(p.pc)) ==> !IsRetired(sh.h.control, p.id))
    && (ReadHolding(p.pc) ==> ValidManifest(p.id, p.pc.manifest))
    && (tracked && ReadHolding(p.pc) ==> RefsHold(w, sh.store, p.pc.manifest))
  }

  /** Objects copied so far that must stay until the target's manifest is there. */
  function Copied(pc: CopyPc, all: nat): nat {
    match pc
    case CopyObjects(_, n) => n
    case CopyGot(_, n, _) => n
    case CopyPlaced(_, n) => n
    case CopyReady(_) => all
    case _ => 0
  }

  /** The target's lease matters: from the first object verified in place to the manifest's creation. */
  predicate CopyGuarded(pc: CopyPc) {
    match pc
    case CopyObjects(_, n) => n > 0
    case CopyGot(_, n, _) => n > 0
    case CopyPlaced(_, n) => n > 0
    case CopyReady(_) => true
    case _ => false
  }

  /** The restore of the source has read a manifest, or found none. */
  predicate HasReread(pc: CopyPc) {
    match pc
    case CopyRestoring(read) => ReadHolding(read) || read.ReadDone? || read.ReadFailed?
    case CopyObjects(_, _) => true
    case CopyGot(_, _, _) => true
    case CopyPlaced(_, _) => true
    case CopyReady(_) => true
    case CopyFound(_) => true
    case CopyPublished(_, _) => true
    case CopyWithdrawing(_, _) => true
    case CopyConfirmed(_) => true
    case _ => false
  }

  predicate CopyEarly(pc: CopyPc) {
    pc.CopyQuiet? || pc.CopyCalled? || pc.CopyHalfLeased? || pc.CopyLeased? || pc.CopySeen?
  }

  /** What the copier has loaded of its source. */
  ghost predicate SourceInv(sh: Shared, p: Copier) {
    && ((CopyEarly(p.pc) && !p.pc.CopyQuiet?) || p.pc.CopyChecked? ==> p.loaded.None? && p.reread.None?)
    && (p.loaded.Some? ==> LoadedOk(sh, p.source, p.loaded.value))
    && (p.reread.Some? ==>
          && p.loaded.Some? && LoadedOk(sh, p.source, p.reread.value)
          && p.loaded.value.version <= p.reread.value.version)
    && (p.pc.CopyRestoring? || HasReread(p.pc) || p.pc.CopyDone? ==> p.loaded.Some? && SameLineage(p.source, p.target))
    && (p.pc.CopyRestoring? && !HasReread(p.pc) ==> p.reread.None?)
    && (HasReread(p.pc) && p.reread.None? ==> Stale(sh, p.source, p.loaded.value))
  }

  /** A version the copier may still withdraw. */
  ghost predicate PublishedInv(sh: Shared, p: Copier, version: nat)
    requires p.loaded.Some?
  {
    LoadedOk(sh, p.target, Loaded(Goods(p), version)) && (InDeletePhase(sh) ==> version < sh.tenureStart)
  }

  ghost predicate CopyInv(w: World, sh: Shared, p: Copier) {
    && (p.born ==> IsRetired(sh.h.control, p.target) && CopyEarly(p.pc))
    && (!p.pc.CopyQuiet? && !p.pc.CopyCalled? ==> SameLineage(p.source, p.target))
    && SourceInv(sh, p)
    && (CopyGuarded(p.pc) ==> p.loaded.Some? && ParcelsHeld(w, sh.store, ParcelsOf(p), Copied(p.pc, |ParcelsOf(p)|)))
    && (p.pc.CopyReady? ==> ValidManifest(p.target, Goods(p)))
    && (p.pc.CopyPublished? || p.pc.CopyWithdrawing? ==> PublishedInv(sh, p, p.pc.version))
    && (p.pc.CopyConfirmed? || (p.pc.CopyDone? && p.pc.confirmed) ==> p.loaded.Some? && p.loaded == p.reread)
  }

  ghost predicate PlannerInv(sh: Shared, p: Planner) {
    forall id, m :: id in p.listings && m in p.listings[id] ==> m.version < sh.version
  }

  predicate ExecPastFence(pc: ExecPc) {
    pc.ExecFenced? || pc.ExecSweeping? || pc.ExecDeleted?
  }

  predicate ExecSwept(pc: ExecPc) {
    pc.ExecSweeping? || pc.ExecDeleted?
  }

  /** The root manifest is the planned one and was written in this tenure. */
  predicate RootFenced(w: World, sh: Shared, plan: Plan) {
    var root := ManifestKey(plan.root);
    root in sh.store && sh.tenureStart <= sh.store[root].version && w.sha(sh.store[root].blob) == plan.rootSha
  }

  /** While the tenure in which the executor read the root manifest lasts, a root manifest other than the one
      read was written in that tenure, and once fenced it has the content planned for. */
  ghost predicate FenceInv(w: World, sh: Shared, p: Exec, plan: Plan) {
    InDeletePhase(sh) && p.tenure == sh.tenure ==>
      var root := ManifestKey(plan.root);
      && (p.pc.ExecGot? && root in sh.store ==>
            sh.store[root].version == p.pc.version || sh.tenureStart <= sh.store[root].version)
      && (p.pc.ExecContended? && root in sh.store ==> sh.tenureStart <= sh.store[root].version)
      && (ExecPastFence(p.pc) ==> RootFenced(w, sh, plan))
  }

  ghost predicate ExecInv(w: World, sh: Shared, p: Exec) {
    && p.now <= sh.h.clock
    && p.tenure <= sh.tenure
    && (!p.pc.ExecStart? && !p.pc.ExecDone? ==> p.planHash in sh.plans)
    && (p.pc.ExecGot? ==>
          && var root := ManifestKey(sh.plans[p.planHash].root);
          && p.pc.version < sh.version
          && (root in sh.store && sh.store[root].version == p.pc.version
              ==> w.sha(sh.store[root].blob) == sh.plans[p.planHash].rootSha))
    && (!p.pc.ExecStart? && !p.pc.ExecDone? ==> FenceInv(w, sh, p, sh.plans[p.planHash]))
    && (ExecSwept(p.pc) ==>
          && (forall id :: id in sh.plans[p.planHash].swept ==> RetiredBy(sh.h.control, id, p.planHash))
          && ResultsMatch(sh, p.planHash, p.pc.results))
    && (p.pc.ExecDeleted? ==>
          && |p.pc.results| < |sh.plans[p.planHash].candidates|
          && var c := sh.plans[p.planHash].candidates[|p.pc.results|];
          c.version < sh.version && GoneAt(sh.store, c.key, c.version))
    && (p.pc.ExecReported? || p.pc.ExecDone? ==>
          p.planHash in sh.reports && sh.reports[p.planHash] == p.pc.report)
  }

  ghost predicate ProcInv(w: World, sh: Shared, p: Proc, tracked: bool) {
    match p
    case PubProc(x) => PubInv(w, sh, x)
    case SnapProc(x) => SnapInv(w, sh, x)
    case ReadProc(x) => ReadInv(w, sh, x, tracked)
    case CopyProc(x) => CopyInv(w, sh, x)
    case PlanProc(x) => PlannerInv(sh, x)
    case ExecProc(x) => ExecInv(w, sh, x)
  }

  /** `tracked` are the readers whose leases are known to stay live. */
  ghost predicate Inv(w: World, tracked: set<nat>, s: State) {
    && SharedInv(w, s.sh)
    && forall pid :: pid in s.procs ==> ProcInv(w, s.sh, s.procs[pid], pid in tracked)
  }

  // ---------------------------------------------------------------- hypotheses about a run

  /** The lease that covers a process is live in the windows that need it: a snapshot publisher's from
      verification of its object to its manifest swap, a copier's target lease from its first verified object to
      the target's manifest, a tracked reader's from acquisition to the end. */
  predicate LeaseHeld(sh: Shared, p: Proc, tracked: bool) {
    match p
    case SnapProc(x) => x.pc.SnapReady? || x.pc.SnapArmed? ==> HasLiveLease(sh, x.lease)
    case CopyProc(x) => CopyGuarded(x.pc) ==> HasLiveLease(sh, x.targetLease)
    case ReadProc(x) => tracked && ReadProtected(x.pc) ==> HasLiveLease(sh, x.lease)
    case _ => true
  }

  predicate LeasesHeld(tracked: set<nat>, s: State) {
    forall pid :: pid in s.procs ==> LeaseHeld(s.sh, s.procs[pid], pid in tracked)
  }

  /** What an executor needs to delete its next candidate: the generation is one its plan sweeps; or the
      executor is still in the barrier tenure in which it read and fenced the root; or else a second look at
      the root finds it as planned and written in the current tenure. */
  predicate MayDelete(w: World, sh: Shared, p: Exec) {
    p.planHash in sh.plans && p.pc.ExecSweeping? && |p.pc.results| < |sh.plans[p.planHash].candidates| ==>
      var plan := sh.plans[p.planHash];
      || plan.candidates[|p.pc.results|].generation in plan.swept
      || p.tenure == sh.tenure
      || RootFenced(w, sh, plan)
  }

  predicate InTenure(w: World, s: State, l: Label) {
    l.Act? && l.action == ByExec(ExecDelete) && l.pid in s.procs && s.procs[l.pid].ExecProc?
    ==> MayDelete(w, s.sh, s.procs[l.pid].exec)
  }
}
