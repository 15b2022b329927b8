/**
 Where safety ends.  An executor that stalls while its barrier expires, and goes on deleting when another
 executor has taken the barrier up again for the same plan, deletes an object that a publisher has taken
 into the manifest in between: the hypothesis `InTenure` cannot be dropped.  Beside that run stand the exact
 conditions under which one deletion, and one manifest swap of a snapshot publisher, are safe, and what an
 executor could look at to know.
 */
module ArchiveLimits {
  import opened Model
  import opened Checkpoint
  import opened Publication
  import opened GcControl
  import opened GcHistory
  import opened GcPlanning
  import opened Archive
  import opened ArchiveSafety
  import opened ArchiveProof
  import opened ArchiveTheorems
  import opened ArchiveReach

  /** All hypotheses but the one on deletions. */
  const UNTENURED: Rules := Rules(true, false, None)

  // ---------------------------------------------------------------- the actors' data

  /** The first entry of a generation's log. */
  function FirstEntry(w: World, id: Identity): Entry {
    Entry(id.cluster, id.epoch, id.config, 1, 0, [], ZERO,
          w.entryHash(Preimage(id.cluster, 1, id.epoch, id.config, 0, ZERO, [])))
  }

  function Orphan(id: Identity): Key {
    SegmentKey(id, 1, 1)
  }

  function Gens(id: Identity): seq<CatalogEntry> {
    [CatalogEntry(id, ManifestKey(id), 0, Active)]
  }

  function Metas(id: Identity): seq<Meta> {
    [Meta(ManifestKey(id), 0, 0), Meta(Orphan(id), 1, 0)]
  }

  function PlanBody(w: World, id: Identity): Plan {
    Plan(0, 0, w.catalogHash(Gens(id)), Gens(id), id, w.sha(ManifestBlob(EmptyManifest(id))), 0, 0,
         [], [Candidate(id, Orphan(id), 1, 0)], ZERO)
  }

  function ThePlan(w: World, id: Identity): Plan {
    PlanBody(w, id).(hash := w.planHash(PlanBody(w, id)))
  }

  function Ctrl(id: Identity, fence: nat, leases: seq<Lease>, active: Option<Barrier>): Control {
    Control(fence, Some(id), Gens(id), leases, active)
  }

  function Bar(w: World, id: Identity, expires: nat, phase: Phase): Barrier {
    Barrier(0, ThePlan(w, id).hash, 1, id, expires, phase)
  }

  /** The manifest with the orphan taken in. */
  function Taken(w: World, id: Identity): Manifest {
    AppendRecord(EmptyManifest(id), RecordOf(w, id, [FirstEntry(w, id)]))
  }

  function StoreWith(w: World, id: Identity, m: Manifest, version: nat, modified: nat): Store {
    map[ManifestKey(id) := Obj(ManifestBlob(m), version, modified),
        Orphan(id) := Obj(SegmentBlob([FirstEntry(w, id)]), 1, 0)]
  }

  function Books(w: World, id: Identity): map<Hash, Plan> {
    map[ThePlan(w, id).hash := ThePlan(w, id)]
  }

  // ---------------------------------------------------------------- 1. a plan is made

  /** A store with an empty checkpoint and a segment that some publisher created and never published. */
  function Start(w: World, id: Identity): State {
    State(Shared(History(EMPTY_CONTROL, 0, {}), StoreWith(w, id, EmptyManifest(id), 0, 0), 2, map[], map[], map[],
                 0, 0),
          map[])
  }

  function ThePolicy(id: Identity): Policy {
    Policy(0, id, 0, 0, 0)
  }

  function PlannerAt(id: Identity, root: Option<Manifest>, listings: map<Identity, seq<Meta>>): Proc {
    PlanProc(Planning(id, root, listings))
  }

  function Planned(w: World, id: Identity): State {
    State(Shared(History(Ctrl(id, 0, [], None), 0, {}), StoreWith(w, id, EmptyManifest(id), 0, 0), 2, Books(w, id),
                 map[], map[], 0, 0),
          Solo(PlannerAt(id, Some(EmptyManifest(id)), map[id := Metas(id)])))
  }

  lemma PlanIsMade(w: World, id: Identity)
    ensures PlanGc(w, ThePolicy(id), Ctrl(id, 0, [], None), EmptyManifest(id), map[id := Metas(id)], 0)
            == Ok(ThePlan(w, id))
  {
    var gens := Gens(id);
    assert ActiveOnly(gens) == gens + ActiveOnly(gens[1..]) == gens;
    assert gens[..0] == [] && SortNewest(gens) == InsertNewest(gens[0], SortNewest([])) == gens;
    var listings := map[id := Metas(id)];
    var m := EmptyManifest(id);
    assert Metas(id)[1..] == [Meta(Orphan(id), 1, 0)];
    assert RootCandidates(id, Metas(id)[1..][1..], m, 0, 0) == [];
    assert RootCandidates(id, Metas(id)[1..], m, 0, 0) == [Candidate(id, Orphan(id), 1, 0)] + [];
    assert RootCandidates(id, Metas(id), m, 0, 0) == [] + [Candidate(id, Orphan(id), 1, 0)];
    assert SweepPass(gens[1..], ThePolicy(id), [], m, listings, 0) == Sweep([], []);
    assert SweepPass(gens, ThePolicy(id), [], m, listings, 0) == Sweep([], [Candidate(id, Orphan(id), 1, 0)] + []);
    assert Retained(gens, id, 0) == [];
    assert [Candidate(id, Orphan(id), 1, 0)] + [] == [Candidate(id, Orphan(id), 1, 0)];
    var c := Ctrl(id, 0, [], None);
    assert Expire(c, 0) == c && FindGeneration(c.generations, id) == Some(gens[0]);
  }

  lemma StartIsInit(w: World, id: Identity)
    ensures InitState(w, Start(w, id))
  {
    var s := Start(w, id);
    forall g | ManifestKey(g) in s.sh.store ensures g == id {}
  }

  function Registered(w: World, id: Identity): State {
    Start(w, id).(sh := Start(w, id).sh.(h := History(Ctrl(id, 0, [], None), 0, {})))
  }

  lemma SortOne(e: CatalogEntry)
    ensures SortCatalog([] + [e]) == [e]
  {
    assert [] + [e] == [e] && [e][..0] == [];
    assert SortCatalog([e]) == InsertSorted(e, SortCatalog([]));
  }

  lemma FirstRegistration(w: World, id: Identity)
    ensures Apply(w, EMPTY_CONTROL, Register(id, 0)) == Ok(Ctrl(id, 0, [], None))
  {
    SortOne(Gens(id)[0]);
  }

  lemma RegisteringStep(w: World, id: Identity)
    ensures ControlWrite(w, Start(w, id).sh, Registered(w, id).sh, Register(id, 0))
  {
    FirstRegistration(w, id);
  }

  lemma ReachRegistered(w: World, id: Identity)
    ensures Reached(w, UNTENURED, {}, Registered(w, id))
  {
    StartIsInit(w, id);
    ReachInit(w, UNTENURED, Start(w, id));
    RegisteringStep(w, id);
    ReachCall(w, UNTENURED, {}, Start(w, id), Registered(w, id).sh, Register(id, 0));
  }

  function Planning(id: Identity, root: Option<Manifest>, listings: map<Identity, seq<Meta>>): Planner {
    Planner(ThePolicy(id), 0, Ctrl(id, 0, [], None), root, listings)
  }

  lemma PlanningSteps(w: World, id: Identity)
    ensures var sh, m := Registered(w, id).sh, EmptyManifest(id);
            && PlanStep(w, sh, sh, Planning(id, None, map[]), Planning(id, Some(m), map[]), PlanReadRoot)
            && PlanStep(w, sh, sh, Planning(id, Some(m), map[]), Planning(id, Some(m), map[id := Metas(id)]),
                        PlanPage(id, Metas(id)))
  {
    assert ValidManifest(id, EmptyManifest(id));
    assert ListingOf(map[], id) + Metas(id) == Metas(id);
  }

  lemma PlannedStep(w: World, id: Identity)
    ensures var full := Planning(id, Some(EmptyManifest(id)), map[id := Metas(id)]);
            PlanStep(w, Registered(w, id).sh, Planned(w, id).sh, full, full, PlanFinish)
  {
    PlanIsMade(w, id);
  }

  lemma ReachPlanning(w: World, id: Identity)
    ensures Reached(w, UNTENURED, {}, State(Registered(w, id).sh, Solo(PlannerAt(id, None, map[]))))
  {
    ReachRegistered(w, id);
    ReachBeginSolo(w, UNTENURED, {}, Registered(w, id), PlannerAt(id, None, map[]));
  }

  lemma ReachListed(w: World, id: Identity)
    ensures Reached(w, UNTENURED, {}, State(Registered(w, id).sh, Planned(w, id).procs))
  {
    ReachPlanning(w, id);
    PlanningSteps(w, id);
    var sh := Registered(w, id).sh;
    var p2, p3 := PlannerAt(id, None, map[]), PlannerAt(id, Some(EmptyManifest(id)), map[]);
    var p4 := PlannerAt(id, Some(EmptyManifest(id)), map[id := Metas(id)]);
    ReachSolo(w, UNTENURED, {}, sh, sh, p2, p3, ByPlan(PlanReadRoot));
    ReachSolo(w, UNTENURED, {}, sh, sh, p3, p4, ByPlan(PlanPage(id, Metas(id))));
  }

  lemma ReachPlanned(w: World, id: Identity)
    ensures Reached(w, UNTENURED, {}, Planned(w, id))
  {
    ReachListed(w, id);
    PlannedStep(w, id);
    var p4 := PlannerAt(id, Some(EmptyManifest(id)), map[id := Metas(id)]);
    ReachSolo(w, UNTENURED, {}, Registered(w, id).sh, Planned(w, id).sh, p4, p4, ByPlan(PlanFinish));
  }

  // ---------------------------------------------------------------- 2. an executor stalls while sweeping

  function ExecutorAt(w: World, id: Identity, now: nat, tenure: nat, pc: ExecPc): Exec {
    Exec(ThePlan(w, id).hash, now, tenure, pc)
  }

  function ExecAt(w: World, id: Identity, now: nat, tenure: nat, pc: ExecPc): Proc {
    ExecProc(ExecutorAt(w, id, now, tenure, pc))
  }

  /** The shared state once the barrier was taken; the root manifest is at `version`. */
  function Held(w: World, id: Identity, clock: nat, c: Control, m: Manifest, version: nat, modified: nat, next: nat,
                tenure: nat, start: nat): Shared {
    Shared(History(c, clock, {ThePlan(w, id)}), StoreWith(w, id, m, version, modified), next, Books(w, id), map[],
           map[], tenure, start)
  }

  function Sweeping(w: World, id: Identity): State {
    State(Held(w, id, 0, Ctrl(id, 1, [], Some(Bar(w, id, 60_000, Deleting))), EmptyManifest(id), 2, 0, 3, 1, 2),
          Solo(ExecAt(w, id, 0, 1, ExecSweeping([]))))
  }

  lemma PlanIsGenuine(w: World, id: Identity)
    ensures Genuine(w, ThePlan(w, id))
  {
    assert ThePlan(w, id).(hash := ZERO) == PlanBody(w, id);
  }

  function Phase1(w: World, id: Identity, phase: Phase): Control {
    Ctrl(id, 1, [], Some(Bar(w, id, 60_000, phase)))
  }

  function Draining1(w: World, id: Identity): Shared {
    Held(w, id, 0, Phase1(w, id, Draining), EmptyManifest(id), 0, 0, 2, 0, 0)
  }

  function Entered1(w: World, id: Identity): Shared {
    Held(w, id, 0, Phase1(w, id, Deleting), EmptyManifest(id), 0, 0, 2, 1, 2)
  }

  lemma EnteringSteps(w: World, id: Identity)
    ensures var sh := Planned(w, id).sh;
            && ExecStep(w, sh, sh, ExecutorAt(w, id, 0, 0, ExecStart), ExecutorAt(w, id, 0, 0, ExecPlanned), ExecLoad)
            && ExecStep(w, sh, Draining1(w, id), ExecutorAt(w, id, 0, 0, ExecPlanned),
                        ExecutorAt(w, id, 0, 0, ExecHolding), ExecBarrier)
            && ExecStep(w, Draining1(w, id), Entered1(w, id), ExecutorAt(w, id, 0, 0, ExecHolding),
                        ExecutorAt(w, id, 0, 0, ExecEntered), ExecEnter)
  {
    PlanIsGenuine(w, id);
    var sh := Planned(w, id).sh;
    assert Apply(w, sh.h.control, AcquireBarrier(ThePlan(w, id), 0)) == Ok(Phase1(w, id, Draining));
    assert Draining1(w, id).h.obtained == sh.h.obtained + {ThePlan(w, id)};
    assert Apply(w, Phase1(w, id, Draining), EnterDelete(ThePlan(w, id), 0)) == Ok(Phase1(w, id, Deleting));
  }

  lemma ReachExecuting(w: World, id: Identity)
    ensures Reached(w, UNTENURED, {}, State(Planned(w, id).sh, Solo(ExecAt(w, id, 0, 0, ExecStart))))
  {
    ReachPlanned(w, id);
    ReachBeginSolo(w, UNTENURED, {}, Planned(w, id), ExecAt(w, id, 0, 0, ExecStart));
  }

  lemma ReachHolding(w: World, id: Identity)
    ensures Reached(w, UNTENURED, {}, State(Draining1(w, id), Solo(ExecAt(w, id, 0, 0, ExecHolding))))
  {
    ReachExecuting(w, id);
    EnteringSteps(w, id);
    var sh := Planned(w, id).sh;
    var p1, p2 := ExecAt(w, id, 0, 0, ExecStart), ExecAt(w, id, 0, 0, ExecPlanned);
    ReachSolo(w, UNTENURED, {}, sh, sh, p1, p2, ByExec(ExecLoad));
    ReachSolo(w, UNTENURED, {}, sh, Draining1(w, id), p2, ExecAt(w, id, 0, 0, ExecHolding), ByExec(ExecBarrier));
  }

  lemma ReachEntered(w: World, id: Identity)
    ensures Reached(w, UNTENURED, {}, State(Entered1(w, id), Solo(ExecAt(w, id, 0, 0, ExecEntered))))
  {
    ReachHolding(w, id);
    EnteringSteps(w, id);
    ReachSolo(w, UNTENURED, {}, Draining1(w, id), Entered1(w, id), ExecAt(w, id, 0, 0, ExecHolding),
              ExecAt(w, id, 0, 0, ExecEntered), ByExec(ExecEnter));
  }

  lemma FencingSteps(w: World, id: Identity)
    ensures var before := Entered1(w, id);
            var after := Sweeping(w, id).sh;
            && ExecStep(w, before, before, ExecutorAt(w, id, 0, 0, ExecEntered), ExecutorAt(w, id, 0, 1, ExecGot(0)),
                        ExecGet)
            && ExecStep(w, before, after, ExecutorAt(w, id, 0, 1, ExecGot(0)), ExecutorAt(w, id, 0, 1, ExecFenced),
                        ExecFence)
            && ExecStep(w, after, after, ExecutorAt(w, id, 0, 1, ExecFenced),
                        ExecutorAt(w, id, 0, 1, ExecSweeping([])), ExecRetire)
  {
    PlanIsGenuine(w, id);
    assert Apply(w, Phase1(w, id, Deleting), RetirePlan(ThePlan(w, id), 0)) == Ok(Phase1(w, id, Deleting));
  }

  lemma ReachFenced(w: World, id: Identity)
    ensures Reached(w, UNTENURED, {}, State(Sweeping(w, id).sh, Solo(ExecAt(w, id, 0, 1, ExecFenced))))
  {
    ReachEntered(w, id);
    FencingSteps(w, id);
    var p4, p5 := ExecAt(w, id, 0, 0, ExecEntered), ExecAt(w, id, 0, 1, ExecGot(0));
    var before, after := Entered1(w, id), Sweeping(w, id).sh;
    ReachSolo(w, UNTENURED, {}, before, before, p4, p5, ByExec(ExecGet));
    ReachSolo(w, UNTENURED, {}, before, after, p5, ExecAt(w, id, 0, 1, ExecFenced), ByExec(ExecFence));
  }

  lemma ReachSweeping(w: World, id: Identity)
    ensures Reached(w, UNTENURED, {}, Sweeping(w, id))
  {
    ReachFenced(w, id);
    FencingSteps(w, id);
    var after := Sweeping(w, id).sh;
    ReachSolo(w, UNTENURED, {}, after, after, ExecAt(w, id, 0, 1, ExecFenced), ExecAt(w, id, 0, 1, ExecSweeping([])),
              ByExec(ExecRetire));
  }

  // ---------------------------------------------------------------- 3. a publisher takes the orphan in

  function PublisherAt(w: World, id: Identity, loaded: Option<Loaded>, pc: PubPc): Pub {
    Pub(id, 7, false, [FirstEntry(w, id)], loaded, pc)
  }

  function PubAt(w: World, id: Identity, loaded: Option<Loaded>, pc: PubPc): Proc {
    PubProc(PublisherAt(w, id, loaded, pc))
  }

  function Stalled(w: World, id: Identity): Proc {
    ExecAt(w, id, 0, 1, ExecSweeping([]))
  }

  function Procs(w: World, id: Identity, other: Proc): map<nat, Proc> {
    Pair(Stalled(w, id), other)
  }

  function Leased(id: Identity): Control {
    Ctrl(id, 1, [Lease(7, Publisher, 1, 120_000)], None)
  }

  lemma FirstEntryPlaced(w: World, id: Identity, store: Store)
    ensures SuffixStart(w, store, id, EmptyManifest(id), [FirstEntry(w, id)]) == Ok(Some(0))
    ensures Chained(w, id, [FirstEntry(w, id)][0..], EmptyManifest(id).tip)
    ensures [FirstEntry(w, id)][0..] == [FirstEntry(w, id)]
  {
    assert LinkOk(w, id, [FirstEntry(w, id)], Tip(0, ZERO), 0);
    assert [FirstEntry(w, id)][0..] == [FirstEntry(w, id)];
  }

  lemma TakenIsValid(w: World, id: Identity)
    requires w.size(SegmentBlob([FirstEntry(w, id)])) != 0
    ensures ValidManifest(id, Taken(w, id))
  {
    assert RecordOk(id, Taken(w, id), 0);
  }

  /** The barrier has run out, though nobody has noticed yet. */
  function Expired(w: World, id: Identity): Shared {
    Held(w, id, 60_000, Phase1(w, id, Deleting), EmptyManifest(id), 2, 0, 3, 1, 2)
  }

  lemma PlacingSteps(w: World, id: Identity)
    ensures var sh := Expired(w, id);
            var ld := Fresh(id);
            && PubStep(w, sh, sh, PublisherAt(w, id, None, PubCalled), PublisherAt(w, id, None, PubChecked), PubEnsure)
            && PubStep(w, sh, sh, PublisherAt(w, id, None, PubChecked), PublisherAt(w, id, ld, PubChecked), PubLoad)
            && PubStep(w, sh, sh, PublisherAt(w, id, ld, PubChecked), PublisherAt(w, id, ld, PubPlaced(0)), PubPlace)
  {
    assert FindGeneration(Gens(id), id) == Some(Gens(id)[0]);
    assert ValidManifest(id, EmptyManifest(id));
    FirstEntryPlaced(w, id, Expired(w, id).store);
  }

  lemma ReachCalled(w: World, id: Identity)
    ensures Reached(w, UNTENURED, {}, State(Expired(w, id), Procs(w, id, PubAt(w, id, None, PubCalled))))
  {
    ReachSweeping(w, id);
    var s0 := Sweeping(w, id);
    var s1 := State(Expired(w, id), s0.procs);
    ReachNext(w, UNTENURED, {}, s0, s1, Advance(60_000));
    assert FindGeneration(Gens(id), id) == Some(Gens(id)[0]);
    var p2 := PubAt(w, id, None, PubCalled);
    ReachBeginSecond(w, UNTENURED, {}, s1, Stalled(w, id), p2);
  }

  /** The manifest as the publisher finds it. */
  function Fresh(id: Identity): Option<Loaded> {
    Some(Loaded(EmptyManifest(id), 2))
  }

  lemma ReachChecked(w: World, id: Identity)
    ensures Reached(w, UNTENURED, {}, State(Expired(w, id), Procs(w, id, PubAt(w, id, None, PubChecked))))
  {
    ReachCalled(w, id);
    PlacingSteps(w, id);
    ReachSecond(w, UNTENURED, {}, Expired(w, id), Expired(w, id), Stalled(w, id), PubAt(w, id, None, PubCalled),
                PubAt(w, id, None, PubChecked), ByPub(PubEnsure));
  }

  lemma ReachPlaced(w: World, id: Identity)
    ensures Reached(w, UNTENURED, {}, State(Expired(w, id), Procs(w, id, PubAt(w, id, Fresh(id), PubPlaced(0)))))
  {
    ReachChecked(w, id);
    PlacingSteps(w, id);
    var sh, p4 := Expired(w, id), PubAt(w, id, Fresh(id), PubChecked);
    ReachSecond(w, UNTENURED, {}, sh, sh, Stalled(w, id), PubAt(w, id, None, PubChecked), p4, ByPub(PubLoad));
    ReachSecond(w, UNTENURED, {}, sh, sh, Stalled(w, id), p4, PubAt(w, id, Fresh(id), PubPlaced(0)), ByPub(PubPlace));
  }

  /** The publisher's renewal has cleared the barrier. */
  function Renewed(w: World, id: Identity): Shared {
    Held(w, id, 60_000, Leased(id), EmptyManifest(id), 2, 0, 3, 1, 2)
  }

  function Swapped(w: World, id: Identity): Shared {
    Held(w, id, 60_000, Leased(id), Taken(w, id), 3, 60_000, 4, 1, 2)
  }

  lemma Renewals(w: World, id: Identity)
    ensures Apply(w, Phase1(w, id, Deleting), RenewLease(Publisher, 7, 60_000, 60_000)) == Ok(Leased(id))
    ensures Apply(w, Leased(id), RenewLease(Publisher, 7, 60_000, 60_000)) == Ok(Leased(id))
    ensures Apply(w, Leased(id), ReleaseLease(7)) == Ok(Ctrl(id, 1, [], None))
  {
    var l := Lease(7, Publisher, 1, 120_000);
    var none: seq<Lease> := [];
    assert none + [l] == [l] && [l][1..] == none;
    assert Expire(Phase1(w, id, Deleting), 60_000) == Ctrl(id, 1, [], None);
    assert Unexpired([l], 60_000) == [l] + Unexpired([l][1..], 60_000) == [l];
    assert Expire(Leased(id), 60_000) == Leased(id);
    assert SetLease([l], 7, 1, 120_000) == [l] + [l][1..] == [l];
    assert WithoutId([l], 7) == WithoutId([l][1..], 7) == none;
  }

  lemma CreatingSteps(w: World, id: Identity)
    ensures var ld := Fresh(id);
            var sh := Renewed(w, id);
            && PubStep(w, Expired(w, id), sh, PublisherAt(w, id, ld, PubPlaced(0)),
                       PublisherAt(w, id, ld, PubRenewed(0)), PubRenew1(60_000, 60_000))
            && PubStep(w, sh, sh, PublisherAt(w, id, ld, PubRenewed(0)), PublisherAt(w, id, ld, PubCreated(0)),
                       PubCreate)
  {
    FirstEntryPlaced(w, id, map[]);
    Renewals(w, id);
  }

  lemma SwappingSteps(w: World, id: Identity)
    requires w.size(SegmentBlob([FirstEntry(w, id)])) != 0
    ensures var ld := Fresh(id);
            var sh := Renewed(w, id);
            && PubStep(w, sh, sh, PublisherAt(w, id, ld, PubCreated(0)), PublisherAt(w, id, ld, PubArmed(0)),
                       PubRenew2(60_000, 60_000))
            && PubStep(w, sh, Swapped(w, id), PublisherAt(w, id, ld, PubArmed(0)),
                       PublisherAt(w, id, Some(Loaded(Taken(w, id), 3)), PubQuiet), PubSwap)
  {
    FirstEntryPlaced(w, id, map[]);
    TakenIsValid(w, id);
    Renewals(w, id);
  }

  lemma ReachCreated(w: World, id: Identity)
    ensures Reached(w, UNTENURED, {}, State(Renewed(w, id), Procs(w, id, PubAt(w, id, Fresh(id), PubCreated(0)))))
  {
    ReachPlaced(w, id);
    CreatingSteps(w, id);
    var sh, p6 := Renewed(w, id), PubAt(w, id, Fresh(id), PubRenewed(0));
    ReachSecond(w, UNTENURED, {}, Expired(w, id), sh, Stalled(w, id), PubAt(w, id, Fresh(id), PubPlaced(0)), p6,
                ByPub(PubRenew1(60_000, 60_000)));
    ReachSecond(w, UNTENURED, {}, sh, sh, Stalled(w, id), p6, PubAt(w, id, Fresh(id), PubCreated(0)), ByPub(PubCreate));
  }

  function Done(w: World, id: Identity): Proc {
    PubAt(w, id, Some(Loaded(Taken(w, id), 3)), PubQuiet)
  }

  lemma ReachTaken(w: World, id: Identity)
    requires w.size(SegmentBlob([FirstEntry(w, id)])) != 0
    ensures Reached(w, UNTENURED, {}, State(Swapped(w, id), Procs(w, id, Done(w, id))))
  {
    ReachCreated(w, id);
    SwappingSteps(w, id);
    var sh, p8 := Renewed(w, id), PubAt(w, id, Fresh(id), PubArmed(0));
    ReachSecond(w, UNTENURED, {}, sh, sh, Stalled(w, id), PubAt(w, id, Fresh(id), PubCreated(0)), p8,
                ByPub(PubRenew2(60_000, 60_000)));
    ReachSecond(w, UNTENURED, {}, sh, Swapped(w, id), Stalled(w, id), p8, Done(w, id), ByPub(PubSwap));
  }

  // ---------------------------------------------------------------- 4. another executor, and the deletion

  function Released(w: World, id: Identity): Shared {
    Held(w, id, 60_000, Ctrl(id, 1, [], None), Taken(w, id), 3, 60_000, 4, 1, 2)
  }

  function Phase2(w: World, id: Identity, phase: Phase): Control {
    Ctrl(id, 1, [], Some(Bar(w, id, 120_000, phase)))
  }

  function Draining2(w: World, id: Identity): Shared {
    Held(w, id, 60_000, Phase2(w, id, Draining), Taken(w, id), 3, 60_000, 4, 1, 2)
  }

  function Entered2(w: World, id: Identity): Shared {
    Held(w, id, 60_000, Phase2(w, id, Deleting), Taken(w, id), 3, 60_000, 4, 2, 4)
  }

  lemma ResumingSteps(w: World, id: Identity)
    ensures var sh := Released(w, id);
            && ExecStep(w, sh, sh, ExecutorAt(w, id, 60_000, 0, ExecStart), ExecutorAt(w, id, 60_000, 0, ExecPlanned),
                        ExecLoad)
            && ExecStep(w, sh, Draining2(w, id), ExecutorAt(w, id, 60_000, 0, ExecPlanned),
                        ExecutorAt(w, id, 60_000, 0, ExecHolding), ExecBarrier)
            && ExecStep(w, Draining2(w, id), Entered2(w, id), ExecutorAt(w, id, 60_000, 0, ExecHolding),
                        ExecutorAt(w, id, 60_000, 0, ExecEntered), ExecEnter)
  {
    PlanIsGenuine(w, id);
    assert CatalogMatchesRetired(Gens(id), ThePlan(w, id));
    assert Apply(w, Released(w, id).h.control, AcquireBarrier(ThePlan(w, id), 60_000)) == Ok(Phase2(w, id, Draining));
    assert Released(w, id).h.obtained == Released(w, id).h.obtained + {ThePlan(w, id)};
    assert Apply(w, Phase2(w, id, Draining), EnterDelete(ThePlan(w, id), 60_000)) == Ok(Phase2(w, id, Deleting));
  }

  lemma ReachReleased(w: World, id: Identity)
    requires w.size(SegmentBlob([FirstEntry(w, id)])) != 0
    ensures Reached(w, UNTENURED, {}, State(Released(w, id), Procs(w, id, Done(w, id))))
  {
    ReachTaken(w, id);
    Renewals(w, id);
    var procs := Procs(w, id, Done(w, id));
    ReachCall(w, UNTENURED, {}, State(Swapped(w, id), procs), Released(w, id), ReleaseLease(7));
  }

  lemma ReachRestarted(w: World, id: Identity)
    requires w.size(SegmentBlob([FirstEntry(w, id)])) != 0
    ensures Reached(w, UNTENURED, {}, State(Released(w, id), Procs(w, id, ExecAt(w, id, 60_000, 0, ExecStart))))
  {
    ReachReleased(w, id);
    var p0 := Done(w, id);
    ReachBeginSecond(w, UNTENURED, {}, State(Released(w, id), Procs(w, id, p0)), Stalled(w, id),
                     ExecAt(w, id, 60_000, 0, ExecStart));
  }

  lemma ReachDraining(w: World, id: Identity)
    requires w.size(SegmentBlob([FirstEntry(w, id)])) != 0
    ensures Reached(w, UNTENURED, {}, State(Draining2(w, id), Procs(w, id, ExecAt(w, id, 60_000, 0, ExecHolding))))
  {
    ReachRestarted(w, id);
    ResumingSteps(w, id);
    var sh := Released(w, id);
    var p1, p2 := ExecAt(w, id, 60_000, 0, ExecStart), ExecAt(w, id, 60_000, 0, ExecPlanned);
    ReachSecond(w, UNTENURED, {}, sh, sh, Stalled(w, id), p1, p2, ByExec(ExecLoad));
    ReachSecond(w, UNTENURED, {}, sh, Draining2(w, id), Stalled(w, id), p2, ExecAt(w, id, 60_000, 0, ExecHolding),
                ByExec(ExecBarrier));
  }

  lemma ReachResumed(w: World, id: Identity)
    requires w.size(SegmentBlob([FirstEntry(w, id)])) != 0
    ensures Reached(w, UNTENURED, {}, State(Entered2(w, id), Procs(w, id, ExecAt(w, id, 60_000, 0, ExecEntered))))
  {
    ReachDraining(w, id);
    ResumingSteps(w, id);
    ReachSecond(w, UNTENURED, {}, Draining2(w, id), Entered2(w, id), Stalled(w, id),
                ExecAt(w, id, 60_000, 0, ExecHolding), ExecAt(w, id, 60_000, 0, ExecEntered), ByExec(ExecEnter));
  }

  function Deleter(w: World, id: Identity): Proc {
    ExecAt(w, id, 0, 1, ExecDeleted([], Outcome.Deleted))
  }

  lemma DeletingStep(w: World, id: Identity)
    ensures ExecStep(w, Entered2(w, id), Remove(Entered2(w, id), Orphan(id)), ExecutorAt(w, id, 0, 1, ExecSweeping([])),
                     ExecutorAt(w, id, 0, 1, ExecDeleted([], Outcome.Deleted)), ExecDelete)
  {
    assert ValidateFence(Phase2(w, id, Deleting), ThePlan(w, id), 0).Ok?;
  }

  lemma NowDangling(w: World, id: Identity)
    ensures var sh := Remove(Entered2(w, id), Orphan(id));
            && !IsRetired(sh.h.control, id)
            && HasManifest(sh.store, id, Taken(w, id)) && !RefsHold(w, sh.store, Taken(w, id))
  {
    var sh := Remove(Entered2(w, id), Orphan(id));
    var r := Taken(w, id).segments[0];
    assert !Intact(w, sh.store, r.key, r.size, r.sha);
    assert FindGeneration(Gens(id), id) == Some(Gens(id)[0]);
  }

  lemma ReachDeleted(w: World, id: Identity)
    requires w.size(SegmentBlob([FirstEntry(w, id)])) != 0
    ensures Reached(w, UNTENURED, {}, State(Remove(Entered2(w, id), Orphan(id)),
                                            Pair(Deleter(w, id), ExecAt(w, id, 60_000, 0, ExecEntered))))
  {
    ReachResumed(w, id);
    DeletingStep(w, id);
    ReachFirst(w, UNTENURED, {}, Entered2(w, id), Remove(Entered2(w, id), Orphan(id)), Stalled(w, id), Deleter(w, id),
               ExecAt(w, id, 60_000, 0, ExecEntered), ByExec(ExecDelete));
  }

  /** A run without the tenure hypothesis, all leases in order, that ends with the manifest of an active
      generation referencing an object that is not in the store. */
  lemma TenureIsNeeded(w: World, id: Identity) returns (s: State)
    requires w.size(SegmentBlob([FirstEntry(w, id)])) != 0
    ensures Reached(w, UNTENURED, {}, s) && !IsRetired(s.sh.h.control, id)
    ensures HasManifest(s.sh.store, id, Taken(w, id)) && !RefsHold(w, s.sh.store, Taken(w, id))
  {
    ReachDeleted(w, id);
    NowDangling(w, id);
    s := State(Remove(Entered2(w, id), Orphan(id)), Pair(Deleter(w, id), ExecAt(w, id, 60_000, 0, ExecEntered)));
  }

  /** The exact condition: deleting an object leaves nothing in force missing if and only if its generation is
      retired, has no manifest, or has one that does not reference the object at that moment. */
  lemma DeletionIsSafeExactly(w: World, sh: Shared, key: Key)
    requires StoreInv(sh) && LiveInv(w, sh) && !key.ManifestKey?
    ensures LiveInv(w, Remove(sh, key)) <==>
            || IsRetired(sh.h.control, key.id) || ManifestKey(key.id) !in sh.store
            || !References(sh.store[ManifestKey(key.id)].blob.manifest, key)
  {
    var sh' := Remove(sh, key);
    var home := ManifestKey(key.id);
    if IsRetired(sh.h.control, key.id) || home !in sh.store || !References(sh.store[home].blob.manifest, key) {
      forall g | ManifestKey(g) in sh'.store && !IsRetired(sh'.h.control, g)
        ensures RefsHold(w, sh'.store, sh'.store[ManifestKey(g)].blob.manifest)
      {
        StillHolds(w, sh, key, g);
      }
    } else {
      Dangles(w, sh, key);
    }
  }

  lemma StillHolds(w: World, sh: Shared, key: Key, g: Identity)
    requires StoreInv(sh) && LiveInv(w, sh) && !key.ManifestKey?
    requires ManifestKey(g) in sh.store && !IsRetired(sh.h.control, g)
    requires key.id == g ==> !References(sh.store[ManifestKey(g)].blob.manifest, key)
    ensures RefsHold(w, Remove(sh, key).store, sh.store[ManifestKey(g)].blob.manifest)
  {
    var n := sh.store[ManifestKey(g)].blob.manifest;
    forall k | References(n, k) ensures k != key { ValidReferences(g, n, k); }
    RefsHoldFrame(w, sh.store, Remove(sh, key).store, n);
  }

  lemma Dangles(w: World, sh: Shared, key: Key)
    requires StoreInv(sh) && !key.ManifestKey? && !IsRetired(sh.h.control, key.id)
    requires ManifestKey(key.id) in sh.store && References(sh.store[ManifestKey(key.id)].blob.manifest, key)
    ensures !LiveInv(w, Remove(sh, key))
  {
    var m := sh.store[ManifestKey(key.id)].blob.manifest;
    var store' := Remove(sh, key).store;
    if !(m.base.Snapshot? && m.base.snapshot.key == key) {
      var i :| 0 <= i < |m.segments| && m.segments[i].key == key;
      assert !Intact(w, store', m.segments[i].key, m.segments[i].size, m.segments[i].sha);
    }
    assert !RefsHold(w, store', m);
    assert Remove(sh, key).store[ManifestKey(key.id)].blob.manifest == m;
  }

  /** What an executor could recheck: a root candidate of its plan may be deleted whenever the root manifest has
      the planned digest; and while the barrier is deleting, if that manifest was also written in the current
      tenure, the deletion keeps the invariant of the shared state, whatever tenure the executor fenced in. */
  lemma RecheckedDeletionIsSafe(w: World, sh: Shared, plan: Plan, c: Candidate)
    requires CoreInv(w, sh) && SoundPlan(w, plan) && c in plan.candidates && c.generation == plan.root
    requires ManifestKey(plan.root) in sh.store && w.sha(sh.store[ManifestKey(plan.root)].blob) == plan.rootSha
    ensures LiveInv(w, Remove(sh, c.key))
    ensures InDeletePhase(sh) && RootFenced(w, sh, plan) ==> CoreInv(w, Remove(sh, c.key))
  {
    var m := sh.store[ManifestKey(plan.root)].blob.manifest;
    assert sh.store[ManifestKey(plan.root)].blob == ManifestBlob(m) && !References(m, c.key);
    DeletionIsSafeExactly(w, sh, c.key);
    if InDeletePhase(sh) && RootFenced(w, sh, plan) { RemoveShared(w, sh, c.key); }
  }

  /** And for a snapshot publisher, whose object was created before the retry loop: its manifest swap leaves
      nothing in force missing if and only if the generation is retired or the object is still intact. */
  lemma SnapshotSwapIsSafeExactly(w: World, sh: Shared, sh': Shared, p: Snap, p': Snap)
    requires StoreInv(sh) && LiveInv(w, sh) && SnapStep(w, sh, sh', p, p', SnapSwap)
    requires LoadedOk(sh, p.id, p.loaded.value)
    requires ValidManifest(p.id, Compact(p.loaded.value.manifest, p.base).value.manifest)
    ensures LiveInv(w, sh') <==>
            IsRetired(sh.h.control, p.id) || Intact(w, sh.store, p.base.key, p.base.size, p.base.digest)
  {
    var m := p.loaded.value.manifest;
    var next := Compact(m, p.base).value.manifest;
    assert HasManifest(sh.store, p.id, m);
    assert next.base == Snapshot(p.base) && p.base.key != ManifestKey(p.id);
    if !IsRetired(sh.h.control, p.id) && Intact(w, sh.store, p.base.key, p.base.size, p.base.digest) {
      CompactedHolds(w, sh.store, p.id, m, p.base);
    }
    forall g | ManifestKey(g) in sh'.store && !IsRetired(sh.h.control, g) && g != p.id
      ensures RefsHold(w, sh'.store, sh'.store[ManifestKey(g)].blob.manifest)
    {
      WriteFrame(w, sh.store, sh'.store, p.id, g, sh.store[ManifestKey(g)].blob.manifest);
    }
    if RefsHold(w, sh.store, next) { WriteFrame(w, sh.store, sh'.store, p.id, p.id, next); }
    assert Intact(w, sh'.store, p.base.key, p.base.size, p.base.digest)
           <==> Intact(w, sh.store, p.base.key, p.base.size, p.base.digest);
  }

  lemma CompactedHolds(w: World, store: Store, id: Identity, m: Manifest, s: SnapshotBase)
    requires ValidManifest(id, m) && RefsHold(w, store, m) && Intact(w, store, s.key, s.size, s.digest)
    requires Compact(m, s).Ok? && Compact(m, s).value.Replaced?
    ensures RefsHold(w, store, Compact(m, s).value.manifest)
  {
    var j := CompactCuts(id, m, s);
    var next := Compact(m, s).value.manifest;
    assert forall i :: 0 <= i < |next.segments| ==> next.segments[i] == m.segments[j + i];
  }

  lemma WriteFrame(w: World, store: Store, store': Store, id: Identity, g: Identity, n: Manifest)
    requires ValidManifest(g, n) && RefsHold(w, store, n)
    requires forall k :: k in store && k != ManifestKey(id) ==> k in store' && store'[k] == store[k]
    ensures RefsHold(w, store', n)
  {
    forall k | References(n, k) ensures k != ManifestKey(id) { ValidReferences(g, n, k); }
    RefsHoldFrame(w, store, store', n);
  }

  /** Likewise for a copier, whose objects were created before: publishing the target's manifest leaves nothing in
      force missing if and only if the target is retired or all its objects are still intact. */
  lemma CopyPublishIsSafeExactly(w: World, sh: Shared, sh': Shared, p: Copier, p': Copier)
    requires StoreInv(sh) && LiveInv(w, sh) && CopyStep(w, sh, sh', p, p', CopyPublish)
    requires ManifestKey(p.target) !in sh.store && ValidManifest(p.target, Goods(p))
    ensures LiveInv(w, sh') <==> IsRetired(sh.h.control, p.target) || RefsHold(w, sh.store, Goods(p))
  {
    forall g | ManifestKey(g) in sh'.store && !IsRetired(sh.h.control, g) && g != p.target
      ensures RefsHold(w, sh'.store, sh'.store[ManifestKey(g)].blob.manifest)
    {
      WriteFrame(w, sh.store, sh'.store, p.target, g, sh.store[ManifestKey(g)].blob.manifest);
    }
    if RefsHold(w, sh.store, Goods(p)) { WriteFrame(w, sh.store, sh'.store, p.target, p.target, Goods(p)); }
    if RefsHold(w, sh'.store, Goods(p)) { WriteFrame(w, sh'.store, sh.store, p.target, p.target, Goods(p)); }
  }
}
