/**
 Why leases must be held.  A snapshot publisher stalls once its object is verified, and its lease runs out.  A
 collection finds the object unreferenced, deletes it and completes, all within its tenure.  The publisher then
 goes on: renewing a lapsed lease takes a new one, its first swap fails because the collector rewrote the manifest,
 and the second succeeds.  The manifest in force references an object that is gone: the hypothesis `LeasesHeld`
 cannot be dropped.
 */
module ArchiveLapses {
  import opened Model
  import opened Checkpoint
  import opened GcControl
  import opened GcHistory
  import opened GcPlanning
  import opened Archive
  import opened ArchiveSafety
  import opened ArchiveTheorems
  import opened ArchiveReach
  import opened ArchiveLimits

  /** All hypotheses on collections, none on leases. */
  const UNLEASED: Rules := Rules(false, true, None)

  // ---------------------------------------------------------------- the data

  /** A snapshot at the tip of the one-segment manifest. */
  function Snapped(w: World, id: Identity, bytes: Bytes): SnapshotBase {
    var digest, size := w.sha(SnapshotBlob(bytes)), w.size(SnapshotBlob(bytes));
    var a := Anchor(ANCHOR_FORMAT, id.cluster, id.epoch, id.config, ConfigState(id.config, ZERO, None), id.generation,
                    Taken(w, id).tip, digest, size, None);
    SnapshotBase(a, SnapshotKeyOf(id, a), digest, size, None)
  }

  function SnapKey(w: World, id: Identity, bytes: Bytes): Key {
    Snapped(w, id, bytes).key
  }

  function Compacted(w: World, id: Identity, bytes: Bytes): Manifest {
    Taken(w, id).(base := Snapshot(Snapped(w, id, bytes)), segments := [])
  }

  /** Neither the segment nor the snapshot is empty. */
  predicate HaveSize(w: World, id: Identity, bytes: Bytes) {
    w.size(SegmentBlob([FirstEntry(w, id)])) != 0 && w.size(SnapshotBlob(bytes)) != 0
  }

  lemma TakenCompacts(w: World, id: Identity, bytes: Bytes)
    requires HaveSize(w, id, bytes)
    ensures Compact(Taken(w, id), Snapped(w, id, bytes)) == Ok(Replaced(Compacted(w, id, bytes)))
    ensures ValidManifest(id, Taken(w, id)) && ValidManifest(id, Compacted(w, id, bytes))
  {
    TakenIsValid(w, id);
    var segs := Taken(w, id).segments;
    assert segs[1..] == [] && RetainAfter(segs, 1) == RetainAfter(segs[1..], 1) == [];
  }

  function FullListing(w: World, id: Identity, bytes: Bytes): seq<Meta> {
    [Meta(ManifestKey(id), 0, 0), Meta(Orphan(id), 1, 0), Meta(SnapKey(w, id, bytes), 2, 0)]
  }

  function SnapCandidate(w: World, id: Identity, bytes: Bytes): Candidate {
    Candidate(id, SnapKey(w, id, bytes), 2, 0)
  }

  function LateBody(w: World, id: Identity, bytes: Bytes): Plan {
    Plan(0, 0, w.catalogHash(Gens(id)), Gens(id), id, w.sha(ManifestBlob(Taken(w, id))), 60_000, 60_000, [],
         [SnapCandidate(w, id, bytes)], ZERO)
  }

  function LatePlan(w: World, id: Identity, bytes: Bytes): Plan {
    LateBody(w, id, bytes).(hash := w.planHash(LateBody(w, id, bytes)))
  }

  // ---------------------------------------------------------------- the shared state, phase by phase

  /** The control while the publisher's first lease is recorded, live or not. */
  function Lapsing(id: Identity): Control {
    Ctrl(id, 0, [Lease(7, Publisher, 0, 60_000)], None)
  }

  function Before(clock: nat, c: Control, store: Store, version: nat): Shared {
    Shared(History(c, clock, {}), store, version, map[], map[], map[], 0, 0)
  }

  function OneSegment(w: World, id: Identity): Store {
    StoreWith(w, id, Taken(w, id), 0, 0)
  }

  function WithSnapshot(w: World, id: Identity, bytes: Bytes): Store {
    OneSegment(w, id)[SnapKey(w, id, bytes) := Obj(SnapshotBlob(bytes), 2, 0)]
  }

  function Late(w: World, id: Identity, bytes: Bytes): Shared {
    Before(60_000, Lapsing(id), WithSnapshot(w, id, bytes), 3)
  }

  function LatePlanned(w: World, id: Identity, bytes: Bytes): Shared {
    Late(w, id, bytes).(plans := map[LatePlan(w, id, bytes).hash := LatePlan(w, id, bytes)])
  }

  function LateBarrier(w: World, id: Identity, bytes: Bytes, phase: Phase): Control {
    Ctrl(id, 1, [], Some(Barrier(0, LatePlan(w, id, bytes).hash, 1, id, 120_000, phase)))
  }

  function LateDraining(w: World, id: Identity, bytes: Bytes): Shared {
    LatePlanned(w, id, bytes).(h := History(LateBarrier(w, id, bytes, Draining), 60_000, {LatePlan(w, id, bytes)}))
  }

  function LateEntered(w: World, id: Identity, bytes: Bytes): Shared {
    LatePlanned(w, id, bytes).(h := History(LateBarrier(w, id, bytes, Deleting), 60_000, {LatePlan(w, id, bytes)}),
                               tenure := 1, tenureStart := 3)
  }

  /** The root manifest has been rewritten. */
  function LateFenced(w: World, id: Identity, bytes: Bytes): Shared {
    Write(LateEntered(w, id, bytes), ManifestKey(id), ManifestBlob(Taken(w, id)))
  }

  function LateDeleted(w: World, id: Identity, bytes: Bytes): Shared {
    Remove(LateFenced(w, id, bytes), SnapKey(w, id, bytes))
  }

  function LateEvidence(w: World, id: Identity, bytes: Bytes): Evidence {
    Evidence(LatePlan(w, id, bytes).hash, SnapKey(w, id, bytes), 2, Deleted, 60_000)
  }

  function LateRecorded(w: World, id: Identity, bytes: Bytes): Shared {
    LateDeleted(w, id, bytes).(
      evidence := map[(LatePlan(w, id, bytes).hash, SnapKey(w, id, bytes)) := LateEvidence(w, id, bytes)])
  }

  function LateReport(w: World, id: Identity, bytes: Bytes): Report {
    Report(LatePlan(w, id, bytes).hash, 1, 60_000, [LateEvidence(w, id, bytes)])
  }

  function LateReported(w: World, id: Identity, bytes: Bytes): Shared {
    LateRecorded(w, id, bytes).(reports := map[LatePlan(w, id, bytes).hash := LateReport(w, id, bytes)])
  }

  /** The collection is complete; the control object is `c`. */
  function Collected(w: World, id: Identity, bytes: Bytes, c: Control): Shared {
    LateReported(w, id, bytes).(h := History(c, 60_000, {LatePlan(w, id, bytes)}))
  }

  function Dangling(w: World, id: Identity, bytes: Bytes): Shared {
    Write(Collected(w, id, bytes, Leased(id)), ManifestKey(id), ManifestBlob(Compacted(w, id, bytes)))
  }

  // ---------------------------------------------------------------- 1. the snapshot publisher stalls

  function Snapper(w: World, id: Identity, bytes: Bytes, version: Option<nat>, pc: SnapPc): Snap {
    Snap(id, 7, false, Snapped(w, id, bytes), bytes,
         if version.None? then None else Some(Loaded(Taken(w, id), version.value)), pc)
  }

  function SnapAt(w: World, id: Identity, bytes: Bytes, version: Option<nat>, pc: SnapPc): Proc {
    SnapProc(Snapper(w, id, bytes, version, pc))
  }

  lemma LapseStart(w: World, id: Identity)
    requires w.size(SegmentBlob([FirstEntry(w, id)])) != 0
    ensures InitState(w, State(Before(0, EMPTY_CONTROL, OneSegment(w, id), 2), map[]))
  {
    TakenIsValid(w, id);
    var store, m := OneSegment(w, id), Taken(w, id);
    assert RefsHold(w, store, m) by {
      assert Intact(w, store, m.segments[0].key, m.segments[0].size, m.segments[0].sha);
    }
    forall g | ManifestKey(g) in store ensures g == id {}
  }

  lemma LapseRegistered(w: World, id: Identity)
    ensures ControlWrite(w, Before(0, EMPTY_CONTROL, OneSegment(w, id), 2),
                         Before(0, Ctrl(id, 0, [], None), OneSegment(w, id), 2), Register(id, 0))
  {
    FirstRegistration(w, id);
  }

  lemma NotRetiredHere(id: Identity, fence: nat, leases: seq<Lease>, active: Option<Barrier>)
    ensures !IsRetired(Ctrl(id, fence, leases, active), id)
  {
    assert FindGeneration(Gens(id), id) == Some(Gens(id)[0]);
  }

  lemma ReachSnapBegun(w: World, id: Identity, bytes: Bytes)
    requires HaveSize(w, id, bytes)
    ensures Reached(w, UNLEASED, {}, State(Before(0, Ctrl(id, 0, [], None), OneSegment(w, id), 2),
                                           Solo(SnapAt(w, id, bytes, None, SnapCalled))))
  {
    var s := State(Before(0, EMPTY_CONTROL, OneSegment(w, id), 2), map[]);
    var sh := Before(0, Ctrl(id, 0, [], None), OneSegment(w, id), 2);
    LapseStart(w, id);
    ReachInit(w, UNLEASED, s);
    LapseRegistered(w, id);
    ReachCall(w, UNLEASED, {}, s, sh, Register(id, 0));
    NotRetiredHere(id, 0, [], None);
    ReachBeginSolo(w, UNLEASED, {}, State(sh, map[]), SnapAt(w, id, bytes, None, SnapCalled));
  }

  lemma SnapPreparingSteps(w: World, id: Identity, bytes: Bytes)
    requires HaveSize(w, id, bytes)
    ensures var sh := Before(0, Ctrl(id, 0, [], None), OneSegment(w, id), 2);
            && SnapStep(w, sh, sh, Snapper(w, id, bytes, None, SnapCalled), Snapper(w, id, bytes, None, SnapChecked),
                        SnapEnsure)
            && SnapStep(w, sh, sh, Snapper(w, id, bytes, None, SnapChecked),
                        Snapper(w, id, bytes, Some(0), SnapChecked), SnapLoad)
  {
    NotRetiredHere(id, 0, [], None);
    TakenIsValid(w, id);
  }

  lemma FirstRenewal(w: World, id: Identity)
    ensures Apply(w, Ctrl(id, 0, [], None), RenewLease(Publisher, 7, 0, 60_000)) == Ok(Lapsing(id))
    ensures Apply(w, Ctrl(id, 1, [], None), RenewLease(Publisher, 7, 60_000, 60_000)) == Ok(Leased(id))
  {
    var none: seq<Lease> := [];
    assert none + [Lease(7, Publisher, 0, 60_000)] == [Lease(7, Publisher, 0, 60_000)];
    assert none + [Lease(7, Publisher, 1, 120_000)] == [Lease(7, Publisher, 1, 120_000)];
  }

  lemma SnapLeasingStep(w: World, id: Identity, bytes: Bytes)
    ensures SnapStep(w, Before(0, Ctrl(id, 0, [], None), OneSegment(w, id), 2),
                     Before(0, Lapsing(id), OneSegment(w, id), 2), Snapper(w, id, bytes, Some(0), SnapChecked),
                     Snapper(w, id, bytes, Some(0), SnapRenewed), SnapRenew1(0, 60_000))
  {
    FirstRenewal(w, id);
  }

  lemma SnapPlacingSteps(w: World, id: Identity, bytes: Bytes)
    ensures var sh, sh' := Before(0, Lapsing(id), OneSegment(w, id), 2),
                           Before(0, Lapsing(id), WithSnapshot(w, id, bytes), 3);
            && SnapStep(w, sh, sh', Snapper(w, id, bytes, Some(0), SnapRenewed),
                        Snapper(w, id, bytes, Some(0), SnapPut), SnapCreate)
            && SnapStep(w, sh', sh', Snapper(w, id, bytes, Some(0), SnapPut),
                        Snapper(w, id, bytes, Some(0), SnapReady), SnapVerify)
  {
  }

  lemma ReachSnapLoaded(w: World, id: Identity, bytes: Bytes)
    requires HaveSize(w, id, bytes)
    ensures Reached(w, UNLEASED, {}, State(Before(0, Ctrl(id, 0, [], None), OneSegment(w, id), 2),
                                           Solo(SnapAt(w, id, bytes, Some(0), SnapChecked))))
  {
    ReachSnapBegun(w, id, bytes);
    SnapPreparingSteps(w, id, bytes);
    var sh, p1 := Before(0, Ctrl(id, 0, [], None), OneSegment(w, id), 2), SnapAt(w, id, bytes, None, SnapChecked);
    ReachSolo(w, UNLEASED, {}, sh, sh, SnapAt(w, id, bytes, None, SnapCalled), p1, BySnap(SnapEnsure));
    ReachSolo(w, UNLEASED, {}, sh, sh, p1, SnapAt(w, id, bytes, Some(0), SnapChecked), BySnap(SnapLoad));
  }

  lemma ReachSnapLeased(w: World, id: Identity, bytes: Bytes)
    requires HaveSize(w, id, bytes)
    ensures Reached(w, UNLEASED, {}, State(Before(0, Lapsing(id), OneSegment(w, id), 2),
                                           Solo(SnapAt(w, id, bytes, Some(0), SnapRenewed))))
  {
    ReachSnapLoaded(w, id, bytes);
    SnapLeasingStep(w, id, bytes);
    ReachSolo(w, UNLEASED, {}, Before(0, Ctrl(id, 0, [], None), OneSegment(w, id), 2),
              Before(0, Lapsing(id), OneSegment(w, id), 2), SnapAt(w, id, bytes, Some(0), SnapChecked),
              SnapAt(w, id, bytes, Some(0), SnapRenewed), BySnap(SnapRenew1(0, 60_000)));
  }

  lemma ReachSnapReady(w: World, id: Identity, bytes: Bytes)
    requires HaveSize(w, id, bytes)
    ensures Reached(w, UNLEASED, {}, State(Before(0, Lapsing(id), WithSnapshot(w, id, bytes), 3),
                                           Solo(SnapAt(w, id, bytes, Some(0), SnapReady))))
  {
    ReachSnapLeased(w, id, bytes);
    SnapPlacingSteps(w, id, bytes);
    var sh := Before(0, Lapsing(id), OneSegment(w, id), 2);
    var sh' := Before(0, Lapsing(id), WithSnapshot(w, id, bytes), 3);
    var p3, p4 := SnapAt(w, id, bytes, Some(0), SnapRenewed), SnapAt(w, id, bytes, Some(0), SnapPut);
    ReachSolo(w, UNLEASED, {}, sh, sh', p3, p4, BySnap(SnapCreate));
    ReachSolo(w, UNLEASED, {}, sh', sh', p4, SnapAt(w, id, bytes, Some(0), SnapReady), BySnap(SnapVerify));
  }

  /** The publisher, stalled with its object verified. */
  function StalledSnap(w: World, id: Identity, bytes: Bytes): Proc {
    SnapAt(w, id, bytes, Some(0), SnapReady)
  }

  /** The lease runs out. */
  lemma ReachLapsed(w: World, id: Identity, bytes: Bytes)
    requires HaveSize(w, id, bytes)
    ensures Reached(w, UNLEASED, {}, State(Late(w, id, bytes), Solo(StalledSnap(w, id, bytes))))
  {
    ReachSnapReady(w, id, bytes);
    var s := State(Before(0, Lapsing(id), WithSnapshot(w, id, bytes), 3), Solo(StalledSnap(w, id, bytes)));
    ReachNext(w, UNLEASED, {}, s, State(Late(w, id, bytes), Solo(StalledSnap(w, id, bytes))), Advance(60_000));
  }

  // ---------------------------------------------------------------- 2. a plan is made

  lemma LeaseIsOver(id: Identity)
    ensures Expire(Lapsing(id), 60_000) == Ctrl(id, 0, [], None)
  {
    var l := Lease(7, Publisher, 0, 60_000);
    assert [l][1..] == [] && Unexpired([l], 60_000) == [] + Unexpired([l][1..], 60_000);
  }

  lemma OnlySnapshotIsOrphan(w: World, id: Identity, bytes: Bytes)
    ensures RootCandidates(id, FullListing(w, id, bytes), Taken(w, id), 60_000, 0) == [SnapCandidate(w, id, bytes)]
  {
    var m, metas := Taken(w, id), FullListing(w, id, bytes);
    assert m.segments[0].key == Orphan(id) && References(m, Orphan(id));
    assert !References(m, SnapKey(w, id, bytes));
    assert metas[1..][1..] == [Meta(SnapKey(w, id, bytes), 2, 0)] && metas[1..][1..][1..] == [];
    assert RootCandidates(id, metas[1..][1..], m, 60_000, 0) == [SnapCandidate(w, id, bytes)] + [];
    assert RootCandidates(id, metas[1..], m, 60_000, 0) == [] + [SnapCandidate(w, id, bytes)];
  }

  lemma SweepsOnlySnapshot(w: World, id: Identity, bytes: Bytes)
    ensures SweepPass(Gens(id), ThePolicy(id), [], Taken(w, id), map[id := FullListing(w, id, bytes)], 60_000)
            == Sweep([], [SnapCandidate(w, id, bytes)])
  {
    OnlySnapshotIsOrphan(w, id, bytes);
    var listings := map[id := FullListing(w, id, bytes)];
    assert Gens(id)[1..] == [];
    assert SweepPass(Gens(id)[1..], ThePolicy(id), [], Taken(w, id), listings, 60_000) == Sweep([], []);
    assert [SnapCandidate(w, id, bytes)] + [] == [SnapCandidate(w, id, bytes)];
  }

  lemma LatePlanIsMade(w: World, id: Identity, bytes: Bytes)
    ensures PlanGc(w, ThePolicy(id), Lapsing(id), Taken(w, id), map[id := FullListing(w, id, bytes)], 60_000)
            == Ok(LatePlan(w, id, bytes))
  {
    var gens := Gens(id);
    assert ActiveOnly(gens) == gens + ActiveOnly(gens[1..]) == gens;
    assert gens[..0] == [] && SortNewest(gens) == InsertNewest(gens[0], SortNewest([])) == gens;
    assert Retained(gens, id, 0) == [];
    SweepsOnlySnapshot(w, id, bytes);
    LeaseIsOver(id);
    assert FindGeneration(gens, id) == Some(gens[0]);
  }

  function LatePlanner(id: Identity, root: Option<Manifest>, listings: map<Identity, seq<Meta>>): Planner {
    Planner(ThePolicy(id), 60_000, Lapsing(id), root, listings)
  }

  lemma LatePlanningSteps(w: World, id: Identity, bytes: Bytes)
    requires HaveSize(w, id, bytes)
    ensures var sh, m, metas := Late(w, id, bytes), Some(Taken(w, id)), FullListing(w, id, bytes);
            && PlanStep(w, sh, sh, LatePlanner(id, None, map[]), LatePlanner(id, m, map[]), PlanReadRoot)
            && PlanStep(w, sh, sh, LatePlanner(id, m, map[]), LatePlanner(id, m, map[id := metas]), PlanPage(id, metas))
  {
    TakenIsValid(w, id);
    assert ListingOf(map[], id) + FullListing(w, id, bytes) == FullListing(w, id, bytes);
  }

  lemma LatePlannedStep(w: World, id: Identity, bytes: Bytes)
    ensures var full := LatePlanner(id, Some(Taken(w, id)), map[id := FullListing(w, id, bytes)]);
            PlanStep(w, Late(w, id, bytes), LatePlanned(w, id, bytes), full, full, PlanFinish)
  {
    LatePlanIsMade(w, id, bytes);
  }

  lemma ReachLatePlanning(w: World, id: Identity, bytes: Bytes)
    requires HaveSize(w, id, bytes)
    ensures Reached(w, UNLEASED, {}, State(Late(w, id, bytes), Pair(StalledSnap(w, id, bytes),
                                                                    PlanProc(LatePlanner(id, None, map[])))))
  {
    ReachLapsed(w, id, bytes);
    ReachBeginSecond(w, UNLEASED, {}, State(Late(w, id, bytes), Solo(StalledSnap(w, id, bytes))),
                     StalledSnap(w, id, bytes), PlanProc(LatePlanner(id, None, map[])));
  }

  lemma ReachLateListed(w: World, id: Identity, bytes: Bytes)
    requires HaveSize(w, id, bytes)
    ensures var full := LatePlanner(id, Some(Taken(w, id)), map[id := FullListing(w, id, bytes)]);
            Reached(w, UNLEASED, {}, State(Late(w, id, bytes), Pair(StalledSnap(w, id, bytes), PlanProc(full))))
  {
    ReachLatePlanning(w, id, bytes);
    LatePlanningSteps(w, id, bytes);
    var sh, m, metas := Late(w, id, bytes), Some(Taken(w, id)), FullListing(w, id, bytes);
    ReachSecond(w, UNLEASED, {}, sh, sh, StalledSnap(w, id, bytes), PlanProc(LatePlanner(id, None, map[])),
                PlanProc(LatePlanner(id, m, map[])), ByPlan(PlanReadRoot));
    ReachSecond(w, UNLEASED, {}, sh, sh, StalledSnap(w, id, bytes), PlanProc(LatePlanner(id, m, map[])),
                PlanProc(LatePlanner(id, m, map[id := metas])), ByPlan(PlanPage(id, metas)));
  }

  function LateExec(w: World, id: Identity, bytes: Bytes, tenure: nat, pc: ExecPc): Exec {
    Exec(LatePlan(w, id, bytes).hash, 60_000, tenure, pc)
  }

  /** The stalled publisher beside the executor. */
  function Executing(w: World, id: Identity, bytes: Bytes, sh: Shared, tenure: nat, pc: ExecPc): State {
    State(sh, Pair(StalledSnap(w, id, bytes), ExecProc(LateExec(w, id, bytes, tenure, pc))))
  }

  lemma ReachLateStart(w: World, id: Identity, bytes: Bytes)
    requires HaveSize(w, id, bytes)
    ensures Reached(w, UNLEASED, {}, Executing(w, id, bytes, LatePlanned(w, id, bytes), 0, ExecStart))
  {
    ReachLateListed(w, id, bytes);
    LatePlannedStep(w, id, bytes);
    var full := PlanProc(LatePlanner(id, Some(Taken(w, id)), map[id := FullListing(w, id, bytes)]));
    var snap := StalledSnap(w, id, bytes);
    ReachSecond(w, UNLEASED, {}, Late(w, id, bytes), LatePlanned(w, id, bytes), snap, full, full, ByPlan(PlanFinish));
    ReachReplaceSecond(w, UNLEASED, {}, LatePlanned(w, id, bytes), snap, full,
                       ExecProc(LateExec(w, id, bytes, 0, ExecStart)));
  }

  // ---------------------------------------------------------------- 3. the plan is executed

  lemma LatePlanIsGenuine(w: World, id: Identity, bytes: Bytes)
    ensures LatePlan(w, id, bytes).hash == w.planHash(LatePlan(w, id, bytes).(hash := ZERO))
  {
    assert LatePlan(w, id, bytes).(hash := ZERO) == LateBody(w, id, bytes);
  }

  lemma LateBarrierOps(w: World, id: Identity, bytes: Bytes)
    ensures var plan := LatePlan(w, id, bytes);
            && Apply(w, Lapsing(id), AcquireBarrier(plan, 60_000)) == Ok(LateBarrier(w, id, bytes, Draining))
            && Apply(w, LateBarrier(w, id, bytes, Draining), EnterDelete(plan, 60_000))
               == Ok(LateBarrier(w, id, bytes, Deleting))
            && Apply(w, LateBarrier(w, id, bytes, Deleting), RetirePlan(plan, 60_000))
               == Ok(LateBarrier(w, id, bytes, Deleting))
            && Apply(w, LateBarrier(w, id, bytes, Deleting), ClearBarrier(plan)) == Ok(Ctrl(id, 1, [], None))
  {
    LeaseIsOver(id);
  }

  lemma LateEnteringSteps(w: World, id: Identity, bytes: Bytes)
    ensures ExecStep(w, LatePlanned(w, id, bytes), LatePlanned(w, id, bytes), LateExec(w, id, bytes, 0, ExecStart),
                     LateExec(w, id, bytes, 0, ExecPlanned), ExecLoad)
    ensures ExecStep(w, LatePlanned(w, id, bytes), LateDraining(w, id, bytes), LateExec(w, id, bytes, 0, ExecPlanned),
                     LateExec(w, id, bytes, 0, ExecHolding), ExecBarrier)
    ensures ExecStep(w, LateDraining(w, id, bytes), LateEntered(w, id, bytes), LateExec(w, id, bytes, 0, ExecHolding),
                     LateExec(w, id, bytes, 0, ExecEntered), ExecEnter)
  {
    LatePlanIsGenuine(w, id, bytes);
    LateBarrierOps(w, id, bytes);
    assert {} + {LatePlan(w, id, bytes)} == {LatePlan(w, id, bytes)};
  }

  lemma LateFencingSteps(w: World, id: Identity, bytes: Bytes)
    ensures var before, after := LateEntered(w, id, bytes), LateFenced(w, id, bytes);
            && ExecStep(w, before, before, LateExec(w, id, bytes, 0, ExecEntered),
                        LateExec(w, id, bytes, 1, ExecGot(0)), ExecGet)
            && ExecStep(w, before, after, LateExec(w, id, bytes, 1, ExecGot(0)), LateExec(w, id, bytes, 1, ExecFenced),
                        ExecFence)
            && ExecStep(w, after, after, LateExec(w, id, bytes, 1, ExecFenced),
                        LateExec(w, id, bytes, 1, ExecSweeping([])), ExecRetire)
  {
    LateBarrierOps(w, id, bytes);
  }

  lemma LateDeletingStep(w: World, id: Identity, bytes: Bytes)
    ensures ExecStep(w, LateFenced(w, id, bytes), LateDeleted(w, id, bytes),
                     LateExec(w, id, bytes, 1, ExecSweeping([])),
                     LateExec(w, id, bytes, 1, ExecDeleted([], Deleted)), ExecDelete)
  {
    assert ValidateFence(LateBarrier(w, id, bytes, Deleting), LatePlan(w, id, bytes), 60_000).Ok?;
  }

  lemma LateRecordingStep(w: World, id: Identity, bytes: Bytes)
    ensures ExecStep(w, LateDeleted(w, id, bytes), LateRecorded(w, id, bytes),
                     LateExec(w, id, bytes, 1, ExecDeleted([], Deleted)),
                     LateExec(w, id, bytes, 1, ExecSweeping([LateEvidence(w, id, bytes)])), ExecRecord)
  {
    assert [] + [LateEvidence(w, id, bytes)] == [LateEvidence(w, id, bytes)];
  }

  lemma LateReportingStep(w: World, id: Identity, bytes: Bytes)
    ensures ExecStep(w, LateRecorded(w, id, bytes), LateReported(w, id, bytes),
                     LateExec(w, id, bytes, 1, ExecSweeping([LateEvidence(w, id, bytes)])),
                     LateExec(w, id, bytes, 1, ExecReported(LateReport(w, id, bytes))), ExecReport)
  {
  }

  lemma LateClearingStep(w: World, id: Identity, bytes: Bytes)
    ensures ExecStep(w, LateReported(w, id, bytes), Collected(w, id, bytes, Ctrl(id, 1, [], None)),
                     LateExec(w, id, bytes, 1, ExecReported(LateReport(w, id, bytes))),
                     LateExec(w, id, bytes, 1, ExecDone(LateReport(w, id, bytes))), ExecClear)
  {
    LateBarrierOps(w, id, bytes);
  }

  /** The executor acts beside the stalled publisher. */
  lemma LateActs(w: World, id: Identity, bytes: Bytes, sh: Shared, sh': Shared, tenure: nat, pc: ExecPc, tenure': nat,
                 pc': ExecPc, a: ExecAction)
    requires Reached(w, UNLEASED, {}, Executing(w, id, bytes, sh, tenure, pc)) && !a.ExecDelete?
    requires ExecStep(w, sh, sh', LateExec(w, id, bytes, tenure, pc), LateExec(w, id, bytes, tenure', pc'), a)
    ensures Reached(w, UNLEASED, {}, Executing(w, id, bytes, sh', tenure', pc'))
  {
    ReachSecond(w, UNLEASED, {}, sh, sh', StalledSnap(w, id, bytes), ExecProc(LateExec(w, id, bytes, tenure, pc)),
                ExecProc(LateExec(w, id, bytes, tenure', pc')), ByExec(a));
  }

  lemma ReachLateEntered(w: World, id: Identity, bytes: Bytes)
    requires HaveSize(w, id, bytes)
    ensures Reached(w, UNLEASED, {}, Executing(w, id, bytes, LateEntered(w, id, bytes), 0, ExecEntered))
  {
    ReachLateStart(w, id, bytes);
    LateEnteringSteps(w, id, bytes);
    var sh, draining := LatePlanned(w, id, bytes), LateDraining(w, id, bytes);
    LateActs(w, id, bytes, sh, sh, 0, ExecStart, 0, ExecPlanned, ExecLoad);
    LateActs(w, id, bytes, sh, draining, 0, ExecPlanned, 0, ExecHolding, ExecBarrier);
    LateActs(w, id, bytes, draining, LateEntered(w, id, bytes), 0, ExecHolding, 0, ExecEntered, ExecEnter);
  }

  lemma ReachLateSweeping(w: World, id: Identity, bytes: Bytes)
    requires HaveSize(w, id, bytes)
    ensures Reached(w, UNLEASED, {}, Executing(w, id, bytes, LateFenced(w, id, bytes), 1, ExecSweeping([])))
  {
    ReachLateEntered(w, id, bytes);
    LateFencingSteps(w, id, bytes);
    var before, after := LateEntered(w, id, bytes), LateFenced(w, id, bytes);
    LateActs(w, id, bytes, before, before, 0, ExecEntered, 1, ExecGot(0), ExecGet);
    LateActs(w, id, bytes, before, after, 1, ExecGot(0), 1, ExecFenced, ExecFence);
    LateActs(w, id, bytes, after, after, 1, ExecFenced, 1, ExecSweeping([]), ExecRetire);
  }

  lemma LateDeletionInTenure(w: World, id: Identity, bytes: Bytes)
    ensures InTenure(w, Executing(w, id, bytes, LateFenced(w, id, bytes), 1, ExecSweeping([])),
                     Act(1, ByExec(ExecDelete)))
  {
  }

  lemma ReachLateDeleted(w: World, id: Identity, bytes: Bytes)
    requires HaveSize(w, id, bytes)
    ensures Reached(w, UNLEASED, {}, Executing(w, id, bytes, LateDeleted(w, id, bytes), 1, ExecDeleted([], Deleted)))
  {
    ReachLateSweeping(w, id, bytes);
    LateDeletingStep(w, id, bytes);
    LateDeletionInTenure(w, id, bytes);
    var p, p' := ExecProc(LateExec(w, id, bytes, 1, ExecSweeping([]))),
                 ExecProc(LateExec(w, id, bytes, 1, ExecDeleted([], Deleted)));
    ProcsMove(StalledSnap(w, id, bytes), p, p');
    ReachAct(w, UNLEASED, {}, Executing(w, id, bytes, LateFenced(w, id, bytes), 1, ExecSweeping([])), 1, p, p',
             ByExec(ExecDelete), Executing(w, id, bytes, LateDeleted(w, id, bytes), 1, ExecDeleted([], Deleted)));
  }

  lemma ReachCollected(w: World, id: Identity, bytes: Bytes)
    requires HaveSize(w, id, bytes)
    ensures Reached(w, UNLEASED, {}, Executing(w, id, bytes, Collected(w, id, bytes, Ctrl(id, 1, [], None)), 1,
                                             ExecDone(LateReport(w, id, bytes))))
  {
    ReachLateDeleted(w, id, bytes);
    LateRecordingStep(w, id, bytes);
    LateReportingStep(w, id, bytes);
    LateClearingStep(w, id, bytes);
    var swept, reported := ExecSweeping([LateEvidence(w, id, bytes)]), ExecReported(LateReport(w, id, bytes));
    LateActs(w, id, bytes, LateDeleted(w, id, bytes), LateRecorded(w, id, bytes), 1, ExecDeleted([], Deleted), 1, swept,
             ExecRecord);
    LateActs(w, id, bytes, LateRecorded(w, id, bytes), LateReported(w, id, bytes), 1, swept, 1, reported, ExecReport);
    LateActs(w, id, bytes, LateReported(w, id, bytes), Collected(w, id, bytes, Ctrl(id, 1, [], None)), 1, reported, 1,
             ExecDone(LateReport(w, id, bytes)), ExecClear);
  }

  // ---------------------------------------------------------------- 4. the publisher goes on

  /** The publisher beside the executor that has finished. */
  function Resumed(w: World, id: Identity, bytes: Bytes, sh: Shared, p: Snap): State {
    State(sh, Pair(SnapProc(p), ExecProc(LateExec(w, id, bytes, 1, ExecDone(LateReport(w, id, bytes))))))
  }

  lemma ResumingSnapSteps(w: World, id: Identity, bytes: Bytes)
    requires HaveSize(w, id, bytes)
    ensures var sh, sh' := Collected(w, id, bytes, Ctrl(id, 1, [], None)), Collected(w, id, bytes, Leased(id));
            && SnapStep(w, sh, sh', Snapper(w, id, bytes, Some(0), SnapReady),
                        Snapper(w, id, bytes, Some(0), SnapArmed), SnapRenew2(60_000, 60_000))
            && SnapStep(w, sh', sh', Snapper(w, id, bytes, Some(0), SnapArmed), Snapper(w, id, bytes, None, SnapReady),
                        SnapRetry)
  {
    FirstRenewal(w, id);
    TakenCompacts(w, id, bytes);
  }

  lemma ReloadingSnapSteps(w: World, id: Identity, bytes: Bytes)
    requires HaveSize(w, id, bytes)
    ensures var sh := Collected(w, id, bytes, Leased(id));
            && SnapStep(w, sh, sh, Snapper(w, id, bytes, None, SnapReady), Snapper(w, id, bytes, Some(3), SnapReady),
                        SnapLoad)
            && SnapStep(w, sh, sh, Snapper(w, id, bytes, Some(3), SnapReady), Snapper(w, id, bytes, Some(3), SnapArmed),
                        SnapRenew2(60_000, 60_000))
  {
    Renewals(w, id);
    TakenCompacts(w, id, bytes);
  }

  function Swapper(w: World, id: Identity, bytes: Bytes): Snap {
    Snapper(w, id, bytes, None, SnapQuiet).(loaded := Some(Loaded(Compacted(w, id, bytes), 4)))
  }

  lemma DanglingSwapStep(w: World, id: Identity, bytes: Bytes)
    requires HaveSize(w, id, bytes)
    ensures SnapStep(w, Collected(w, id, bytes, Leased(id)), Dangling(w, id, bytes),
                     Snapper(w, id, bytes, Some(3), SnapArmed), Swapper(w, id, bytes), SnapSwap)
  {
    TakenCompacts(w, id, bytes);
  }

  lemma ResumedActs(w: World, id: Identity, bytes: Bytes, sh: Shared, sh': Shared, p: Snap, p': Snap, a: SnapAction)
    requires Reached(w, UNLEASED, {}, Resumed(w, id, bytes, sh, p)) && SnapStep(w, sh, sh', p, p', a)
    ensures Reached(w, UNLEASED, {}, Resumed(w, id, bytes, sh', p'))
  {
    ReachFirst(w, UNLEASED, {}, sh, sh', SnapProc(p), SnapProc(p'),
               ExecProc(LateExec(w, id, bytes, 1, ExecDone(LateReport(w, id, bytes)))), BySnap(a));
  }

  lemma ReachRetried(w: World, id: Identity, bytes: Bytes)
    requires HaveSize(w, id, bytes)
    ensures Reached(w, UNLEASED, {},
                    Resumed(w, id, bytes, Collected(w, id, bytes, Leased(id)), Snapper(w, id, bytes, None, SnapReady)))
  {
    ReachCollected(w, id, bytes);
    ResumingSnapSteps(w, id, bytes);
    var sh, sh' := Collected(w, id, bytes, Ctrl(id, 1, [], None)), Collected(w, id, bytes, Leased(id));
    var p1 := Snapper(w, id, bytes, Some(0), SnapArmed);
    ResumedActs(w, id, bytes, sh, sh', Snapper(w, id, bytes, Some(0), SnapReady), p1, SnapRenew2(60_000, 60_000));
    ResumedActs(w, id, bytes, sh', sh', p1, Snapper(w, id, bytes, None, SnapReady), SnapRetry);
  }

  lemma ReachDangling(w: World, id: Identity, bytes: Bytes)
    requires HaveSize(w, id, bytes)
    ensures Reached(w, UNLEASED, {}, Resumed(w, id, bytes, Dangling(w, id, bytes), Swapper(w, id, bytes)))
  {
    ReachRetried(w, id, bytes);
    ReloadingSnapSteps(w, id, bytes);
    DanglingSwapStep(w, id, bytes);
    var sh := Collected(w, id, bytes, Leased(id));
    var p3, p4 := Snapper(w, id, bytes, Some(3), SnapReady), Snapper(w, id, bytes, Some(3), SnapArmed);
    ResumedActs(w, id, bytes, sh, sh, Snapper(w, id, bytes, None, SnapReady), p3, SnapLoad);
    ResumedActs(w, id, bytes, sh, sh, p3, p4, SnapRenew2(60_000, 60_000));
    ResumedActs(w, id, bytes, sh, Dangling(w, id, bytes), p4, Swapper(w, id, bytes), SnapSwap);
  }

  lemma SnapshotIsMissing(w: World, id: Identity, bytes: Bytes)
    ensures var sh := Dangling(w, id, bytes);
            && !IsRetired(sh.h.control, id) && HasManifest(sh.store, id, Compacted(w, id, bytes))
            && SnapKey(w, id, bytes) !in sh.store && !RefsHold(w, sh.store, Compacted(w, id, bytes))
  {
    NotRetiredHere(id, 1, Leased(id).leases, None);
  }

  /** A run in which every deletion comes within its tenure, but a snapshot publisher's lease lapses while its
      object waits for the manifest, that ends with the manifest of an active generation based on a snapshot that
      is not in the store. */
  lemma LeasesAreNeeded(w: World, id: Identity, bytes: Bytes) returns (ss: seq<State>, ls: seq<Label>)
    requires HaveSize(w, id, bytes)
    ensures ArchiveTheorems.IsRun(w, ss, ls) && forall i :: 0 <= i < |ls| ==> InTenure(w, ss[i], ls[i])
    ensures var last := ss[|ss| - 1].sh;
            && !IsRetired(last.h.control, id) && HasManifest(last.store, id, Compacted(w, id, bytes))
            && SnapKey(w, id, bytes) !in last.store && !RefsHold(w, last.store, Compacted(w, id, bytes))
  {
    ReachDangling(w, id, bytes);
    SnapshotIsMissing(w, id, bytes);
    ss, ls := RunReaching(w, UNLEASED, {}, Resumed(w, id, bytes, Dangling(w, id, bytes), Swapper(w, id, bytes)));
  }
}
