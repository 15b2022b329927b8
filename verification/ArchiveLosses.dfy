/**
 How an acknowledged publication, and a copy that returned Ok, can be lost.  A copier publishes the manifest of
 a new recovery generation.  A second copier finds that very manifest in place, registers the generation and
 returns Ok; a publisher of the generation finds its batch covered and returns Ok.  Then the first copier sees
 that the source has changed meanwhile and withdraws the manifest.  All leases are held, everything published
 comes from one committed log and nothing is retired, yet the generation is left without a checkpoint:
 durability needs the condition on withdrawals that ArchiveDurability states.
 */
module ArchiveLosses {
  import opened Model
  import opened Checkpoint
  import opened Publication
  import opened Copying
  import opened GcControl
  import opened GcHistory
  import opened Archive
  import opened ArchiveSafety
  import opened ArchiveTheorems
  import opened ArchiveLog
  import opened ArchiveReach
  import opened ArchiveLimits

  // ---------------------------------------------------------------- the log

  function NextGeneration(id: Identity): Identity {
    id.(generation := id.generation + 1)
  }

  function SecondEntry(w: World, id: Identity): Entry {
    var prev := FirstEntry(w, id).hash;
    Entry(id.cluster, id.epoch, id.config, 2, 0, [], prev,
          w.entryHash(Preimage(id.cluster, 2, id.epoch, id.config, 0, prev, [])))
  }

  /** The committed log: the same for all recovery generations of a configuration. */
  ghost function TheLog(w: World): Log {
    (id: Identity) => [FirstEntry(w, id), SecondEntry(w, id)]
  }

  /** All hypotheses. */
  ghost function AllRules(w: World): Rules {
    Rules(true, true, Some(TheLog(w)))
  }

  lemma TheLogIsOk(w: World)
    ensures LogOk(w, TheLog(w))
  {
    forall id ensures Chained(w, id, TheLog(w)(id), Tip(0, ZERO)) {
      var es := TheLog(w)(id);
      assert LinkOk(w, id, es, Tip(0, ZERO), 0) && LinkOk(w, id, es, Tip(0, ZERO), 1);
    }
  }

  lemma TakenOnLog(w: World, id: Identity)
    ensures OnLog(w, TheLog(w), id, Taken(w, id))
  {
    var entries := TheLog(w)(id);
    assert entries[0..1] == [FirstEntry(w, id)];
    assert RecordOnLog(w, id, entries, Taken(w, id).segments[0]);
  }

  /** Segments are never empty objects. */
  predicate SegmentsHaveSize(w: World, id: Identity) {
    w.size(SegmentBlob([FirstEntry(w, id)])) != 0 && w.size(SegmentBlob([SecondEntry(w, id)])) != 0
  }

  /** The source after another publication. */
  function Longer(w: World, id: Identity): Manifest {
    AppendRecord(Taken(w, id), RecordOf(w, id, [SecondEntry(w, id)]))
  }

  // ---------------------------------------------------------------- leases

  /** The leases in the order in which they are taken: two for each copier, one for the source's publisher. */
  function LeaseNo(k: nat): Lease {
    Lease(if k < 4 then 8 + k else 7, if k == 0 || k == 2 then Reader else Publisher, 0, 60_000)
  }

  function L(n: nat): (ls: seq<Lease>)
    ensures |ls| == n && forall k :: 0 <= k < n ==> ls[k] == LeaseNo(k)
  {
    if n == 0 then [] else L(n - 1) + [LeaseNo(n - 1)]
  }

  /** The control object: the target is registered or not, n leases are held. */
  function C(id: Identity, registered: bool, n: nat): Control {
    var t := NextGeneration(id);
    if registered then Control(0, Some(t), Gens(t), L(n), None) else Control(0, None, [], L(n), None)
  }

  lemma {:induction false} AllUnexpired(leases: seq<Lease>, now: nat)
    requires forall i :: 0 <= i < |leases| ==> leases[i].expires > now
    ensures Unexpired(leases, now) == leases
  {
    if leases != [] {
      AllUnexpired(leases[1..], now);
      assert leases == [leases[0]] + leases[1..];
    }
  }

  lemma {:induction false} NoneWithId(leases: seq<Lease>, id: nat)
    requires forall i :: 0 <= i < |leases| ==> leases[i].id != id
    ensures WithoutId(leases, id) == leases && FindLease(leases, id).None?
  {
    if leases != [] {
      NoneWithId(leases[1..], id);
      assert leases == [leases[0]] + leases[1..];
    }
  }

  lemma {:induction false} LastFound(leases: seq<Lease>, l: Lease)
    requires forall i :: 0 <= i < |leases| ==> leases[i].id != l.id
    ensures FindLease(leases + [l], l.id) == Some(l)
  {
    if leases != [] {
      assert (leases + [l])[1..] == leases[1..] + [l];
      LastFound(leases[1..], l);
    }
  }

  /** Refreshing a lease to what it is changes nothing. */
  lemma {:induction false} SetToItself(leases: seq<Lease>, l: Lease)
    requires FindLease(leases, l.id) == Some(l)
    ensures SetLease(leases, l.id, l.fence, l.expires) == leases
  {
    assert leases == [leases[0]] + leases[1..];
    if leases[0].id != l.id { SetToItself(leases[1..], l); }
  }

  lemma NothingExpires(id: Identity, registered: bool, n: nat)
    ensures Expire(C(id, registered, n), 0) == C(id, registered, n)
  {
    AllUnexpired(L(n), 0);
  }

  lemma TakeLease(w: World, id: Identity, registered: bool, n: nat)
    requires n < 5
    ensures var l := LeaseNo(n);
            && Apply(w, C(id, registered, n), AcquireLease(l.kind, l.id, 0, 60_000)) == Ok(C(id, registered, n + 1))
            && Apply(w, C(id, registered, n), RenewLease(l.kind, l.id, 0, 60_000)) == Ok(C(id, registered, n + 1))
  {
    NothingExpires(id, registered, n);
    NoneWithId(L(n), LeaseNo(n).id);
  }

  lemma RenewHeld(w: World, c: Control, l: Lease)
    requires Expire(c, 0) == c && c.active.None? && FindLease(c.leases, l.id) == Some(l)
    requires l.fence == c.fence && l.expires == 60_000
    ensures Apply(w, c, RenewLease(l.kind, l.id, 0, 60_000)) == Ok(c)
  {
    SetToItself(c.leases, l);
  }

  lemma KeepLease(w: World, id: Identity, registered: bool, n: nat)
    requires n < 5
    ensures var l := LeaseNo(n);
            Apply(w, C(id, registered, n + 1), RenewLease(l.kind, l.id, 0, 60_000)) == Ok(C(id, registered, n + 1))
  {
    NothingExpires(id, registered, n + 1);
    LastFound(L(n), LeaseNo(n));
    RenewHeld(w, C(id, registered, n + 1), LeaseNo(n));
  }

  // ---------------------------------------------------------------- the shared state

  function Sh(id: Identity, registered: bool, n: nat, store: Store, version: nat): Shared {
    Shared(History(C(id, registered, n), 0, {}), store, version, map[], map[], map[], 0, 0)
  }

  function Store0(w: World, id: Identity): Store {
    StoreWith(w, id, Taken(w, id), 0, 0)
  }

  function Store1(w: World, id: Identity): Store {
    Store0(w, id)[Orphan(NextGeneration(id)) := Obj(SegmentBlob([FirstEntry(w, id)]), 2, 0)]
  }

  function Store2(w: World, id: Identity): Store {
    Store1(w, id)[ManifestKey(NextGeneration(id)) := Obj(ManifestBlob(Taken(w, NextGeneration(id))), 3, 0)]
  }

  function Store3(w: World, id: Identity): Store {
    Store2(w, id)[SegmentKey(id, 2, 2) := Obj(SegmentBlob([SecondEntry(w, id)]), 4, 0)]
  }

  function Store4(w: World, id: Identity): Store {
    Store3(w, id)[ManifestKey(id) := Obj(ManifestBlob(Longer(w, id)), 5, 0)]
  }

  lemma NotRetired(id: Identity, registered: bool, n: nat, g: Identity)
    ensures !IsRetired(C(id, registered, n), g)
  {
    var gens := Gens(NextGeneration(id));
    assert gens[1..] == [];
  }

  /** The source's manifest and segment are in place, and nothing is retired. */
  ghost predicate SourceThere(w: World, id: Identity, sh: Shared) {
    && StoredAs(sh.store, id, Loaded(Taken(w, id), 0))
    && Orphan(id) in sh.store && sh.store[Orphan(id)].blob == SegmentBlob([FirstEntry(w, id)])
    && !IsRetired(sh.h.control, id) && !IsRetired(sh.h.control, NextGeneration(id))
  }

  lemma SourceStands(w: World, id: Identity, registered: bool, n: nat, store: Store, version: nat)
    requires store == Store0(w, id) || store == Store1(w, id) || store == Store2(w, id)
    ensures SourceThere(w, id, Sh(id, registered, n, store, version))
  {
    NotRetired(id, registered, n, id);
    NotRetired(id, registered, n, NextGeneration(id));
  }

  // ---------------------------------------------------------------- copiers

  /** A copier; its leases are the k-th and the next. */
  function Cop(id: Identity, k: nat, loaded: Option<Loaded>, reread: Option<Loaded>, pc: CopyPc): Copier {
    Copier(id, NextGeneration(id), 8 + k, 9 + k, false, loaded, reread, pc)
  }

  function Ld(w: World, id: Identity): Option<Loaded> {
    Some(Loaded(Taken(w, id), 0))
  }

  /** The copier once it has read its source. */
  function Full(w: World, id: Identity, k: nat, pc: CopyPc): Copier {
    Cop(id, k, Ld(w, id), Ld(w, id), pc)
  }

  function Result0(w: World, id: Identity): Restored {
    Restored(None, [FirstEntry(w, id)], Taken(w, id).tip)
  }

  lemma SameFirstEntry(w: World, id: Identity)
    ensures FirstEntry(w, NextGeneration(id)) == FirstEntry(w, id)
    ensures SecondEntry(w, NextGeneration(id)) == SecondEntry(w, id)
  {
  }

  lemma CopyIsTaken(w: World, id: Identity)
    ensures CopyOf(NextGeneration(id), Taken(w, id)) == Taken(w, NextGeneration(id))
    ensures var blob := SegmentBlob([FirstEntry(w, id)]);
            Parcels(NextGeneration(id), Taken(w, id))
            == [Parcel(Orphan(id), Orphan(NextGeneration(id)), w.size(blob), w.sha(blob))]
  {
    SameFirstEntry(w, id);
    var t := NextGeneration(id);
    var m := Taken(w, id);
    assert m.segments == [RecordOf(w, id, [FirstEntry(w, id)])];
    assert CopyRecords(t, m.segments) == [RecordOf(w, t, [FirstEntry(w, t)])];
    assert Taken(w, t).segments == [RecordOf(w, t, [FirstEntry(w, t)])];
  }

  lemma FirstSegmentLoads(w: World, id: Identity, store: Store)
    requires Orphan(id) in store && store[Orphan(id)].blob == SegmentBlob([FirstEntry(w, id)])
    ensures LoadSegment(w, store, id, Taken(w, id).segments[0]) == Ok([FirstEntry(w, id)])
    ensures Chained(w, id, [FirstEntry(w, id)], Tip(0, ZERO))
  {
    assert LinkOk(w, id, [FirstEntry(w, id)], Tip(0, ZERO), 0);
  }

  /** A copier's guarded window is covered by its second lease. */
  lemma Guarded(id: Identity, registered: bool, n: nat, store: Store, version: nat, p: Copier, k: nat)
    requires k + 1 < n && (k == 0 || k == 2) && p.targetLease == 9 + k
    ensures LeaseHeld(Sh(id, registered, n, store, version), CopyProc(p), false)
  {
    var sh := Sh(id, registered, n, store, version);
    assert L(n)[k + 1] == LeaseNo(k + 1) && L(n)[k + 1] in sh.h.control.leases;
    assert HasLiveLease(sh, p.targetLease);
  }

  lemma LeaseSourceStep(w: World, id: Identity, k: nat, store: Store, version: nat)
    requires id.generation < MAX_U64 && (k == 0 || k == 2)
    ensures CopyStep(w, Sh(id, false, k, store, version), Sh(id, false, k + 1, store, version),
                     Cop(id, k, None, None, CopyCalled), Cop(id, k, None, None, CopyHalfLeased),
                     CopyLeaseSource(0, 60_000))
  {
    TakeLease(w, id, false, k);
  }

  lemma LeaseTargetStep(w: World, id: Identity, k: nat, store: Store, version: nat)
    requires k == 0 || k == 2
    ensures CopyStep(w, Sh(id, false, k + 1, store, version), Sh(id, false, k + 2, store, version),
                     Cop(id, k, None, None, CopyHalfLeased), Cop(id, k, None, None, CopyLeased),
                     CopyLeaseTarget(0, 60_000))
  {
    TakeLease(w, id, false, k + 1);
  }

  lemma SeeingSteps(w: World, id: Identity, k: nat, sh: Shared)
    requires SourceThere(w, id, sh)
    ensures CopyStep(w, sh, sh, Cop(id, k, None, None, CopyLeased), Cop(id, k, None, None, CopySeen), CopySeeSource)
    ensures CopyStep(w, sh, sh, Cop(id, k, None, None, CopySeen), Cop(id, k, None, None, CopyChecked), CopySeeTarget)
  {
  }

  lemma LoadingStep(w: World, id: Identity, k: nat, sh: Shared)
    requires SourceThere(w, id, sh) && SegmentsHaveSize(w, id)
    ensures CopyStep(w, sh, sh, Cop(id, k, None, None, CopyChecked),
                     Cop(id, k, Ld(w, id), None, CopyRestoring(ReadChecked)), CopyLoad)
  {
    TakenIsValid(w, id);
  }

  lemma RestoringSteps(w: World, id: Identity, k: nat, sh: Shared)
    requires SourceThere(w, id, sh) && SegmentsHaveSize(w, id)
    ensures var m := Taken(w, id);
            && CopyStep(w, sh, sh, Cop(id, k, Ld(w, id), None, CopyRestoring(ReadChecked)),
                        Full(w, id, k, CopyRestoring(ReadLoaded(m))), CopyRestore(ReadManifest))
            && CopyStep(w, sh, sh, Full(w, id, k, CopyRestoring(ReadLoaded(m))),
                        Full(w, id, k, CopyRestoring(ReadSegments(m, None, [], 0))), CopyRestore(ReadBase))
  {
    TakenIsValid(w, id);
  }

  lemma RestoredSteps(w: World, id: Identity, k: nat, sh: Shared)
    requires SourceThere(w, id, sh)
    ensures var m, es := Taken(w, id), [FirstEntry(w, id)];
            && CopyStep(w, sh, sh, Full(w, id, k, CopyRestoring(ReadSegments(m, None, [], 0))),
                        Full(w, id, k, CopyRestoring(ReadSegments(m, None, es, 1))), CopyRestore(ReadSegment))
            && CopyStep(w, sh, sh, Full(w, id, k, CopyRestoring(ReadSegments(m, None, es, 1))),
                        Full(w, id, k, CopyRestoring(ReadDone(m, Result0(w, id)))), CopyRestore(ReadFinish))
  {
    FirstSegmentLoads(w, id, sh.store);
    var none: seq<Entry> := [];
    assert none + [FirstEntry(w, id)] == [FirstEntry(w, id)];
  }

  lemma GettingSteps(w: World, id: Identity, k: nat, sh: Shared)
    requires SourceThere(w, id, sh)
    ensures var r, blob := Result0(w, id), SegmentBlob([FirstEntry(w, id)]);
            && CopyStep(w, sh, sh, Full(w, id, k, CopyRestoring(ReadDone(Taken(w, id), r))),
                        Full(w, id, k, CopyObjects(r, 0)), CopyStart)
            && CopyStep(w, sh, sh, Full(w, id, k, CopyObjects(r, 0)), Full(w, id, k, CopyGot(r, 0, blob)), CopyGet)
  {
    CopyIsTaken(w, id);
  }

  // ---------------------------------------------------------------- one copier alone, or beside another process

  function Beside(first: Option<Proc>, q: Proc): map<nat, Proc> {
    if first.None? then Solo(q) else Pair(first.value, q)
  }

  /** A process that needs no lease any more. */
  predicate Unguarded(first: Option<Proc>) {
    first.Some? ==> first.value.CopyProc? && !CopyGuarded(first.value.copier.pc)
  }

  lemma ReachBeside(w: World, made: set<Promise>, first: Option<Proc>, sh: Shared, sh': Shared, q: Proc, q': Proc,
                    a: Action)
    requires Reached(w, AllRules(w), made, State(sh, Beside(first, q))) && ActorStep(w, sh, sh', q, q', a)
    requires Unguarded(first) && LeaseHeld(sh', q', false) && a != ByExec(ExecDelete)
    ensures Reached(w, AllRules(w), made, State(sh', Beside(first, q')))
  {
    if first.None? {
      ReachSolo(w, AllRules(w), made, sh, sh', q, q', a);
    } else {
      ReachSecond(w, AllRules(w), made, sh, sh', first.value, q, q', a);
    }
  }

  lemma CopierSees(w: World, made: set<Promise>, first: Option<Proc>, id: Identity, k: nat, sh: Shared)
    requires Unguarded(first) && SourceThere(w, id, sh) && SegmentsHaveSize(w, id)
    requires Reached(w, AllRules(w), made, State(sh, Beside(first, CopyProc(Cop(id, k, None, None, CopyLeased)))))
    ensures Reached(w, AllRules(w), made,
                    State(sh, Beside(first, CopyProc(Cop(id, k, None, None, CopyChecked)))))
  {
    SeeingSteps(w, id, k, sh);
    var p3, p4 := CopyProc(Cop(id, k, None, None, CopyLeased)), CopyProc(Cop(id, k, None, None, CopySeen));
    ReachBeside(w, made, first, sh, sh, p3, p4, ByCopy(CopySeeSource));
    ReachBeside(w, made, first, sh, sh, p4, CopyProc(Cop(id, k, None, None, CopyChecked)), ByCopy(CopySeeTarget));
  }

  lemma CopierLoads(w: World, made: set<Promise>, first: Option<Proc>, id: Identity, k: nat, sh: Shared)
    requires Unguarded(first) && SourceThere(w, id, sh) && SegmentsHaveSize(w, id)
    requires Reached(w, AllRules(w), made, State(sh, Beside(first, CopyProc(Cop(id, k, None, None, CopyLeased)))))
    ensures Reached(w, AllRules(w), made,
                    State(sh, Beside(first, CopyProc(Cop(id, k, Ld(w, id), None, CopyRestoring(ReadChecked))))))
  {
    CopierSees(w, made, first, id, k, sh);
    LoadingStep(w, id, k, sh);
    ReachBeside(w, made, first, sh, sh, CopyProc(Cop(id, k, None, None, CopyChecked)),
                CopyProc(Cop(id, k, Ld(w, id), None, CopyRestoring(ReadChecked))), ByCopy(CopyLoad));
  }

  lemma CopierReads(w: World, made: set<Promise>, first: Option<Proc>, id: Identity, k: nat, sh: Shared)
    requires Unguarded(first) && SourceThere(w, id, sh) && SegmentsHaveSize(w, id)
    requires Reached(w, AllRules(w), made, State(sh, Beside(first, CopyProc(Cop(id, k, None, None, CopyLeased)))))
    ensures Reached(w, AllRules(w), made,
                    State(sh, Beside(first,
                                     CopyProc(Full(w, id, k, CopyRestoring(ReadSegments(Taken(w, id), None, [], 0)))))))
  {
    CopierLoads(w, made, first, id, k, sh);
    RestoringSteps(w, id, k, sh);
    var m := Taken(w, id);
    var p6 := CopyProc(Full(w, id, k, CopyRestoring(ReadLoaded(m))));
    ReachBeside(w, made, first, sh, sh, CopyProc(Cop(id, k, Ld(w, id), None, CopyRestoring(ReadChecked))), p6,
                ByCopy(CopyRestore(ReadManifest)));
    ReachBeside(w, made, first, sh, sh, p6, CopyProc(Full(w, id, k, CopyRestoring(ReadSegments(m, None, [], 0)))),
                ByCopy(CopyRestore(ReadBase)));
  }

  lemma CopierRestores(w: World, made: set<Promise>, first: Option<Proc>, id: Identity, k: nat, sh: Shared)
    requires Unguarded(first) && SourceThere(w, id, sh) && SegmentsHaveSize(w, id)
    requires Reached(w, AllRules(w), made, State(sh, Beside(first, CopyProc(Cop(id, k, None, None, CopyLeased)))))
    ensures Reached(w, AllRules(w), made,
                    State(sh, Beside(first,
                                     CopyProc(Full(w, id, k, CopyRestoring(ReadDone(Taken(w, id), Result0(w, id))))))))
  {
    CopierReads(w, made, first, id, k, sh);
    RestoredSteps(w, id, k, sh);
    var m, es := Taken(w, id), [FirstEntry(w, id)];
    var p7 := CopyProc(Full(w, id, k, CopyRestoring(ReadSegments(m, None, [], 0))));
    var p8 := CopyProc(Full(w, id, k, CopyRestoring(ReadSegments(m, None, es, 1))));
    ReachBeside(w, made, first, sh, sh, p7, p8, ByCopy(CopyRestore(ReadSegment)));
    ReachBeside(w, made, first, sh, sh, p8, CopyProc(Full(w, id, k, CopyRestoring(ReadDone(m, Result0(w, id))))),
                ByCopy(CopyRestore(ReadFinish)));
  }

  function GotIt(w: World, id: Identity, k: nat): Proc {
    CopyProc(Full(w, id, k, CopyGot(Result0(w, id), 0, SegmentBlob([FirstEntry(w, id)]))))
  }

  /** From its leases to the download of the only object, a copier meets nothing unexpected. */
  lemma CopierGets(w: World, made: set<Promise>, first: Option<Proc>, id: Identity, k: nat, sh: Shared)
    requires Unguarded(first) && SourceThere(w, id, sh) && SegmentsHaveSize(w, id)
    requires Reached(w, AllRules(w), made, State(sh, Beside(first, CopyProc(Cop(id, k, None, None, CopyLeased)))))
    ensures Reached(w, AllRules(w), made, State(sh, Beside(first, GotIt(w, id, k))))
  {
    CopierRestores(w, made, first, id, k, sh);
    GettingSteps(w, id, k, sh);
    var r := Result0(w, id);
    var p9, p0 := CopyProc(Full(w, id, k, CopyRestoring(ReadDone(Taken(w, id), r)))),
                  CopyProc(Full(w, id, k, CopyObjects(r, 0)));
    ReachBeside(w, made, first, sh, sh, p9, p0, ByCopy(CopyStart));
    ReachBeside(w, made, first, sh, sh, p0, GotIt(w, id, k), ByCopy(CopyGet));
  }

  // ---------------------------------------------------------------- 1. the first copier publishes

  lemma LossStart(w: World, id: Identity)
    requires SegmentsHaveSize(w, id)
    ensures InitState(w, State(Sh(id, false, 0, Store0(w, id), 2), map[]))
    ensures StoreOnLog(w, TheLog(w), Store0(w, id))
  {
    TakenIsValid(w, id);
    TakenOnLog(w, id);
    var store, m := Store0(w, id), Taken(w, id);
    assert RefsHold(w, store, m) by {
      assert Intact(w, store, m.segments[0].key, m.segments[0].size, m.segments[0].sha);
    }
    forall g | ManifestKey(g) in store ensures g == id {}
  }

  lemma ReachBegun(w: World, id: Identity)
    requires SegmentsHaveSize(w, id)
    ensures Reached(w, AllRules(w), {},
                    State(Sh(id, false, 0, Store0(w, id), 2), Solo(CopyProc(Cop(id, 0, None, None, CopyCalled)))))
  {
    var s := State(Sh(id, false, 0, Store0(w, id), 2), map[]);
    LossStart(w, id);
    TheLogIsOk(w);
    ReachInit(w, AllRules(w), s);
    NotRetired(id, false, 0, NextGeneration(id));
    SameFirstEntry(w, id);
    ReachBeginSolo(w, AllRules(w), {}, s, CopyProc(Cop(id, 0, None, None, CopyCalled)));
  }

  /** A copier takes its two leases. */
  lemma CopierLeases(w: World, made: set<Promise>, first: Option<Proc>, id: Identity, k: nat, store: Store,
                     version: nat)
    requires id.generation < MAX_U64 && (k == 0 || k == 2) && Unguarded(first)
    requires Reached(w, AllRules(w), made,
                     State(Sh(id, false, k, store, version),
                           Beside(first, CopyProc(Cop(id, k, None, None, CopyCalled)))))
    ensures Reached(w, AllRules(w), made,
                    State(Sh(id, false, k + 2, store, version),
                          Beside(first, CopyProc(Cop(id, k, None, None, CopyLeased)))))
  {
    LeaseSourceStep(w, id, k, store, version);
    LeaseTargetStep(w, id, k, store, version);
    var p1, p2 := CopyProc(Cop(id, k, None, None, CopyCalled)), CopyProc(Cop(id, k, None, None, CopyHalfLeased));
    ReachBeside(w, made, first, Sh(id, false, k, store, version), Sh(id, false, k + 1, store, version), p1, p2,
                ByCopy(CopyLeaseSource(0, 60_000)));
    ReachBeside(w, made, first, Sh(id, false, k + 1, store, version), Sh(id, false, k + 2, store, version), p2,
                CopyProc(Cop(id, k, None, None, CopyLeased)), ByCopy(CopyLeaseTarget(0, 60_000)));
  }

  lemma ReachGot(w: World, id: Identity)
    requires SegmentsHaveSize(w, id) && id.generation < MAX_U64
    ensures Reached(w, AllRules(w), {}, State(Sh(id, false, 2, Store0(w, id), 2), Solo(GotIt(w, id, 0))))
  {
    ReachBegun(w, id);
    CopierLeases(w, {}, None, id, 0, Store0(w, id), 2);
    SourceStands(w, id, false, 2, Store0(w, id), 2);
    CopierGets(w, {}, None, id, 0, Sh(id, false, 2, Store0(w, id), 2));
  }

  lemma PlacingSteps0(w: World, id: Identity)
    ensures var c, d, r := Sh(id, false, 2, Store0(w, id), 2), Sh(id, false, 2, Store1(w, id), 3), Result0(w, id);
            && CopyStep(w, c, d, GotIt(w, id, 0).copier, Full(w, id, 0, CopyPlaced(r, 0)), CopyPut)
            && CopyStep(w, d, d, Full(w, id, 0, CopyPlaced(r, 0)), Full(w, id, 0, CopyObjects(r, 1)), CopyVerify)
  {
    CopyIsTaken(w, id);
  }

  lemma PublishingSteps(w: World, id: Identity)
    requires SegmentsHaveSize(w, id)
    ensures var d, e, r := Sh(id, false, 2, Store1(w, id), 3), Sh(id, false, 2, Store2(w, id), 4), Result0(w, id);
            && CopyStep(w, d, d, Full(w, id, 0, CopyObjects(r, 1)), Full(w, id, 0, CopyReady(r)), CopyLook)
            && CopyStep(w, d, e, Full(w, id, 0, CopyReady(r)), Full(w, id, 0, CopyPublished(r, 3)), CopyPublish)
  {
    CopyIsTaken(w, id);
    SameFirstEntry(w, id);
    TakenIsValid(w, NextGeneration(id));
  }

  lemma ReachCopied(w: World, id: Identity)
    requires SegmentsHaveSize(w, id) && id.generation < MAX_U64
    ensures Reached(w, AllRules(w), {},
                    State(Sh(id, false, 2, Store1(w, id), 3),
                          Solo(CopyProc(Full(w, id, 0, CopyObjects(Result0(w, id), 1))))))
  {
    ReachGot(w, id);
    PlacingSteps0(w, id);
    var d, q2 := Sh(id, false, 2, Store1(w, id), 3), Full(w, id, 0, CopyPlaced(Result0(w, id), 0));
    var q3 := Full(w, id, 0, CopyObjects(Result0(w, id), 1));
    Guarded(id, false, 2, Store1(w, id), 3, q3, 0);
    ReachSolo(w, AllRules(w), {}, Sh(id, false, 2, Store0(w, id), 2), d, GotIt(w, id, 0), CopyProc(q2),
              ByCopy(CopyPut));
    ReachSolo(w, AllRules(w), {}, d, d, CopyProc(q2), CopyProc(q3), ByCopy(CopyVerify));
  }

  /** The first copier with the manifest published, at version 3. */
  function Publication0(w: World, id: Identity): Proc {
    CopyProc(Full(w, id, 0, CopyPublished(Result0(w, id), 3)))
  }

  lemma ReachPublished(w: World, id: Identity)
    requires SegmentsHaveSize(w, id) && id.generation < MAX_U64
    ensures Reached(w, AllRules(w), {}, State(Sh(id, false, 2, Store2(w, id), 4), Solo(Publication0(w, id))))
  {
    ReachCopied(w, id);
    PublishingSteps(w, id);
    var d, q4 := Sh(id, false, 2, Store1(w, id), 3), Full(w, id, 0, CopyReady(Result0(w, id)));
    Guarded(id, false, 2, Store1(w, id), 3, q4, 0);
    ReachSolo(w, AllRules(w), {}, d, d, CopyProc(Full(w, id, 0, CopyObjects(Result0(w, id), 1))), CopyProc(q4),
              ByCopy(CopyLook));
    ReachSolo(w, AllRules(w), {}, d, Sh(id, false, 2, Store2(w, id), 4), CopyProc(q4), Publication0(w, id),
              ByCopy(CopyPublish));
  }

  // ---------------------------------------------------------------- 2. the second copier adopts it

  lemma ReachSecondBegun(w: World, id: Identity)
    requires SegmentsHaveSize(w, id) && id.generation < MAX_U64
    ensures Reached(w, AllRules(w), {}, State(Sh(id, false, 2, Store2(w, id), 4),
                                              Pair(Publication0(w, id), CopyProc(Cop(id, 2, None, None, CopyCalled)))))
  {
    ReachPublished(w, id);
    NotRetired(id, false, 2, NextGeneration(id));
    SameFirstEntry(w, id);
    ReachBeginSecond(w, AllRules(w), {}, State(Sh(id, false, 2, Store2(w, id), 4), Solo(Publication0(w, id))),
                     Publication0(w, id), CopyProc(Cop(id, 2, None, None, CopyCalled)));
  }

  lemma ReachSecondGot(w: World, id: Identity)
    requires SegmentsHaveSize(w, id) && id.generation < MAX_U64
    ensures Reached(w, AllRules(w), {},
                    State(Sh(id, false, 4, Store2(w, id), 4), Pair(Publication0(w, id), GotIt(w, id, 2))))
  {
    ReachSecondBegun(w, id);
    CopierLeases(w, {}, Some(Publication0(w, id)), id, 2, Store2(w, id), 4);
    SourceStands(w, id, false, 4, Store2(w, id), 4);
    CopierGets(w, {}, Some(Publication0(w, id)), id, 2, Sh(id, false, 4, Store2(w, id), 4));
  }

  lemma PlacingAgainSteps(w: World, id: Identity)
    ensures var e, r := Sh(id, false, 4, Store2(w, id), 4), Result0(w, id);
            && CopyStep(w, e, e, GotIt(w, id, 2).copier, Full(w, id, 2, CopyPlaced(r, 0)), CopyPut)
            && CopyStep(w, e, e, Full(w, id, 2, CopyPlaced(r, 0)), Full(w, id, 2, CopyObjects(r, 1)), CopyVerify)
  {
    CopyIsTaken(w, id);
    SameFirstEntry(w, id);
  }

  lemma FindingStep(w: World, id: Identity)
    requires SegmentsHaveSize(w, id)
    ensures var e, r := Sh(id, false, 4, Store2(w, id), 4), Result0(w, id);
            CopyStep(w, e, e, Full(w, id, 2, CopyObjects(r, 1)), Full(w, id, 2, CopyFound(r)), CopyLook)
  {
    CopyIsTaken(w, id);
    SameFirstEntry(w, id);
    TakenIsValid(w, NextGeneration(id));
  }

  /** The first copier, which has published, beside the second, which has read its source. */
  function Both(w: World, id: Identity, pc: CopyPc): State {
    State(Sh(id, false, 4, Store2(w, id), 4), Pair(Publication0(w, id), CopyProc(Full(w, id, 2, pc))))
  }

  lemma ReachPlaced(w: World, id: Identity)
    requires SegmentsHaveSize(w, id) && id.generation < MAX_U64
    ensures Reached(w, AllRules(w), {}, Both(w, id, CopyObjects(Result0(w, id), 1)))
  {
    ReachSecondGot(w, id);
    PlacingAgainSteps(w, id);
    var e, r, first := Sh(id, false, 4, Store2(w, id), 4), Result0(w, id), Publication0(w, id);
    var q2, q3 := CopyProc(Full(w, id, 2, CopyPlaced(r, 0))), CopyProc(Full(w, id, 2, CopyObjects(r, 1)));
    Guarded(id, false, 4, Store2(w, id), 4, q3.copier, 2);
    ReachSecond(w, AllRules(w), {}, e, e, first, GotIt(w, id, 2), q2, ByCopy(CopyPut));
    ReachSecond(w, AllRules(w), {}, e, e, first, q2, q3, ByCopy(CopyVerify));
  }

  lemma ReachFound(w: World, id: Identity)
    requires SegmentsHaveSize(w, id) && id.generation < MAX_U64
    ensures Reached(w, AllRules(w), {}, Both(w, id, CopyFound(Result0(w, id))))
  {
    ReachPlaced(w, id);
    FindingStep(w, id);
    var e, r, first := Sh(id, false, 4, Store2(w, id), 4), Result0(w, id), Publication0(w, id);
    ReachSecond(w, AllRules(w), {}, e, e, first, CopyProc(Full(w, id, 2, CopyObjects(r, 1))),
                CopyProc(Full(w, id, 2, CopyFound(r))), ByCopy(CopyLook));
  }

  /** What the second copier was told. */
  function CopyPromise(w: World, id: Identity): Promise {
    Adopted(NextGeneration(id), Taken(w, NextGeneration(id)))
  }

  lemma RegisteringStep0(w: World, id: Identity)
    ensures ControlWrite(w, Sh(id, false, 4, Store2(w, id), 4), Sh(id, true, 4, Store2(w, id), 4),
                         Register(NextGeneration(id), 0))
  {
    SortOne(Gens(NextGeneration(id))[0]);
  }

  function AfterCopy(w: World, id: Identity): State {
    State(Sh(id, true, 4, Store2(w, id), 4),
          Pair(Publication0(w, id), CopyProc(Full(w, id, 2, CopyDone(Result0(w, id), false)))))
  }

  lemma RegisteringNext(w: World, id: Identity)
    ensures var s, l := Both(w, id, CopyFound(Result0(w, id))), Act(1, ByCopy(CopyRegister(0)));
            Next(w, s, AfterCopy(w, id), l) && StepObeys(w, AllRules(w), s, AfterCopy(w, id), l)
  {
    RegisteringStep0(w, id);
    var found, done := Full(w, id, 2, CopyFound(Result0(w, id))), Full(w, id, 2, CopyDone(Result0(w, id), false));
    ProcsMove(Publication0(w, id), CopyProc(found), CopyProc(done));
    PairHeld(AfterCopy(w, id).sh, Publication0(w, id), CopyProc(done));
  }

  lemma RegisteringPromises(w: World, id: Identity)
    ensures Makes(Both(w, id, CopyFound(Result0(w, id))), AfterCopy(w, id), Act(1, ByCopy(CopyRegister(0))),
                  CopyPromise(w, id))
  {
    CopyIsTaken(w, id);
  }

  lemma ReachAdopted(w: World, id: Identity)
    requires SegmentsHaveSize(w, id) && id.generation < MAX_U64
    ensures Reached(w, AllRules(w), {CopyPromise(w, id)}, AfterCopy(w, id))
  {
    ReachFound(w, id);
    RegisteringNext(w, id);
    RegisteringPromises(w, id);
    assert {} + {CopyPromise(w, id)} == {CopyPromise(w, id)};
    ReachOnePromise(w, AllRules(w), {}, CopyPromise(w, id), Both(w, id, CopyFound(Result0(w, id))), AfterCopy(w, id),
                 Act(1, ByCopy(CopyRegister(0))));
  }

  // ---------------------------------------------------------------- 3. a publisher is acknowledged

  function Writer(w: World, id: Identity, es: seq<Entry>, loaded: Option<Loaded>, pc: PubPc): Pub {
    Pub(id, 7, false, es, loaded, pc)
  }

  function Batch(w: World, id: Identity): seq<Entry> {
    [FirstEntry(w, id)]
  }

  /** The publisher of the target generation. */
  function Asker(w: World, id: Identity, loaded: bool, pc: PubPc): Pub {
    var found := if loaded then Some(Loaded(Taken(w, NextGeneration(id)), 3)) else None;
    Writer(w, NextGeneration(id), Batch(w, id), found, pc)
  }

  lemma CoveredByCopy(w: World, id: Identity)
    ensures SuffixStart(w, Store2(w, id), NextGeneration(id), Taken(w, NextGeneration(id)), Batch(w, id)) == Ok(None)
  {
    var t := NextGeneration(id);
    SameFirstEntry(w, id);
    FirstSegmentLoads(w, t, Store2(w, id));
    var m := Taken(w, t);
    assert m.segments == [RecordOf(w, t, [FirstEntry(w, t)])];
    assert RecordAt(m.segments, 1) == Some(m.segments[0]);
  }

  lemma AskingSteps(w: World, id: Identity)
    requires SegmentsHaveSize(w, id)
    ensures var e := Sh(id, true, 4, Store2(w, id), 4);
            && PubStep(w, e, e, Asker(w, id, false, PubCalled), Asker(w, id, false, PubChecked), PubEnsure)
            && PubStep(w, e, e, Asker(w, id, false, PubChecked), Asker(w, id, true, PubChecked), PubLoad)
  {
    NotRetired(id, true, 4, NextGeneration(id));
    SameFirstEntry(w, id);
    TakenIsValid(w, NextGeneration(id));
  }

  lemma AnsweringStep(w: World, id: Identity)
    ensures var e := Sh(id, true, 4, Store2(w, id), 4);
            PubStep(w, e, e, Asker(w, id, true, PubChecked), Asker(w, id, true, PubQuiet), PubCovered)
  {
    CoveredByCopy(w, id);
  }

  /** The first copier, which has published, beside a publisher; the target is registered. */
  function Together(w: World, id: Identity, p: Pub): State {
    State(Sh(id, true, 4, Store2(w, id), 4), Pair(Publication0(w, id), PubProc(p)))
  }

  lemma AskerBegins(w: World, id: Identity)
    ensures CanBegin(AfterCopy(w, id), PubProc(Asker(w, id, false, PubCalled)))
    ensures ProcDraws(TheLog(w), PubProc(Asker(w, id, false, PubCalled)))
  {
    NotRetired(id, true, 4, NextGeneration(id));
    SameFirstEntry(w, id);
    assert TheLog(w)(NextGeneration(id))[0] == Batch(w, id)[0];
    assert InLog(TheLog(w)(NextGeneration(id)), Batch(w, id)[0]);
  }

  lemma ReachAsking(w: World, id: Identity)
    requires SegmentsHaveSize(w, id) && id.generation < MAX_U64
    ensures Reached(w, AllRules(w), {CopyPromise(w, id)}, Together(w, id, Asker(w, id, false, PubCalled)))
  {
    ReachAdopted(w, id);
    AskerBegins(w, id);
    ReachReplaceSecond(w, AllRules(w), {CopyPromise(w, id)}, AfterCopy(w, id).sh, Publication0(w, id),
                       CopyProc(Full(w, id, 2, CopyDone(Result0(w, id), false))),
                       PubProc(Asker(w, id, false, PubCalled)));
  }

  lemma ReachAsked(w: World, id: Identity)
    requires SegmentsHaveSize(w, id) && id.generation < MAX_U64
    ensures Reached(w, AllRules(w), {CopyPromise(w, id)}, Together(w, id, Asker(w, id, true, PubChecked)))
  {
    ReachAsking(w, id);
    AskingSteps(w, id);
    var e, q2 := Sh(id, true, 4, Store2(w, id), 4), PubProc(Asker(w, id, false, PubChecked));
    ReachSecond(w, AllRules(w), {CopyPromise(w, id)}, e, e, Publication0(w, id),
                PubProc(Asker(w, id, false, PubCalled)), q2, ByPub(PubEnsure));
    ReachSecond(w, AllRules(w), {CopyPromise(w, id)}, e, e, Publication0(w, id), q2,
                PubProc(Asker(w, id, true, PubChecked)), ByPub(PubLoad));
  }

  /** What the second copier and the publisher were told. */
  function Promises(w: World, id: Identity): set<Promise> {
    {CopyPromise(w, id)} + {Answered(NextGeneration(id), Batch(w, id))}
  }

  function AfterAnswer(w: World, id: Identity): State {
    Together(w, id, Asker(w, id, true, PubQuiet))
  }

  lemma AnsweringNext(w: World, id: Identity)
    ensures var s, l := Together(w, id, Asker(w, id, true, PubChecked)), Act(1, ByPub(PubCovered));
            Next(w, s, AfterAnswer(w, id), l) && StepObeys(w, AllRules(w), s, AfterAnswer(w, id), l)
  {
    AnsweringStep(w, id);
    var q3, q4 := PubProc(Asker(w, id, true, PubChecked)), PubProc(Asker(w, id, true, PubQuiet));
    ProcsMove(Publication0(w, id), q3, q4);
    PairHeld(AfterAnswer(w, id).sh, Publication0(w, id), q4);
  }

  lemma AnsweringPromises(w: World, id: Identity)
    ensures Makes(Together(w, id, Asker(w, id, true, PubChecked)), AfterAnswer(w, id), Act(1, ByPub(PubCovered)),
                  Answered(NextGeneration(id), Batch(w, id)))
  {
    SameFirstEntry(w, id);
  }

  lemma ReachAnswered(w: World, id: Identity)
    requires SegmentsHaveSize(w, id) && id.generation < MAX_U64
    ensures Reached(w, AllRules(w), Promises(w, id), AfterAnswer(w, id))
  {
    ReachAsked(w, id);
    AnsweringNext(w, id);
    AnsweringPromises(w, id);
    var now := Answered(NextGeneration(id), Batch(w, id));
    ReachOnePromise(w, AllRules(w), {CopyPromise(w, id)}, now, Together(w, id, Asker(w, id, true, PubChecked)),
                 AfterAnswer(w, id), Act(1, ByPub(PubCovered)));
  }

  // ---------------------------------------------------------------- 4. the source changes

  function Second(w: World, id: Identity): seq<Entry> {
    [SecondEntry(w, id)]
  }

  /** The publisher of the source. */
  function Changer(w: World, id: Identity, loaded: Option<Loaded>, pc: PubPc): Pub {
    Writer(w, id, Second(w, id), loaded, pc)
  }

  lemma SecondPlaced(w: World, id: Identity, store: Store)
    ensures SuffixStart(w, store, id, Taken(w, id), Second(w, id)) == Ok(Some(0))
    ensures Second(w, id)[0..] == Second(w, id) && Chained(w, id, Second(w, id), Taken(w, id).tip)
  {
    assert LinkOk(w, id, Second(w, id), Taken(w, id).tip, 0);
  }

  lemma LongerIsValid(w: World, id: Identity)
    requires SegmentsHaveSize(w, id)
    ensures ValidManifest(id, Longer(w, id))
  {
    TakenIsValid(w, id);
    SecondPlaced(w, id, map[]);
    AppendExtends(w, id, Taken(w, id), Second(w, id));
  }

  lemma ChangingSteps(w: World, id: Identity, sh: Shared)
    requires SegmentsHaveSize(w, id) && SourceThere(w, id, sh)
    ensures PubStep(w, sh, sh, Changer(w, id, None, PubCalled), Changer(w, id, None, PubChecked), PubEnsure)
    ensures PubStep(w, sh, sh, Changer(w, id, None, PubChecked), Changer(w, id, Ld(w, id), PubChecked), PubLoad)
    ensures PubStep(w, sh, sh, Changer(w, id, Ld(w, id), PubChecked), Changer(w, id, Ld(w, id), PubPlaced(0)), PubPlace)
  {
    TakenIsValid(w, id);
    SecondPlaced(w, id, sh.store);
  }

  lemma RenewingStep(w: World, id: Identity)
    ensures PubStep(w, Sh(id, true, 4, Store2(w, id), 4), Sh(id, true, 5, Store2(w, id), 4),
                    Changer(w, id, Ld(w, id), PubPlaced(0)), Changer(w, id, Ld(w, id), PubRenewed(0)),
                    PubRenew1(0, 60_000))
  {
    TakeLease(w, id, true, 4);
  }

  lemma CreatingStep(w: World, id: Identity)
    ensures PubStep(w, Sh(id, true, 5, Store2(w, id), 4), Sh(id, true, 5, Store3(w, id), 5),
                    Changer(w, id, Ld(w, id), PubRenewed(0)), Changer(w, id, Ld(w, id), PubCreated(0)), PubCreate)
  {
    SecondPlaced(w, id, Store2(w, id));
  }

  lemma ArmingStep(w: World, id: Identity)
    requires SegmentsHaveSize(w, id)
    ensures PubStep(w, Sh(id, true, 5, Store3(w, id), 5), Sh(id, true, 5, Store3(w, id), 5),
                    Changer(w, id, Ld(w, id), PubCreated(0)), Changer(w, id, Ld(w, id), PubArmed(0)),
                    PubRenew2(0, 60_000))
  {
    KeepLease(w, id, true, 4);
    SecondPlaced(w, id, map[]);
    LongerIsValid(w, id);
    assert NextManifest(w, Changer(w, id, Ld(w, id), PubCreated(0)), 0) == Longer(w, id);
  }

  function Changed(w: World, id: Identity): Pub {
    Changer(w, id, Some(Loaded(Longer(w, id), 5)), PubQuiet)
  }

  lemma SwappingStep(w: World, id: Identity)
    ensures PubStep(w, Sh(id, true, 5, Store3(w, id), 5), Sh(id, true, 5, Store4(w, id), 6),
                    Changer(w, id, Ld(w, id), PubArmed(0)), Changed(w, id), PubSwap)
  {
    SecondPlaced(w, id, map[]);
    assert NextManifest(w, Changer(w, id, Ld(w, id), PubArmed(0)), 0) == Longer(w, id);
  }

  /** The source's publisher acts beside the first copier, which has published. */
  lemma ChangerActs(w: World, made: set<Promise>, id: Identity, sh: Shared, sh': Shared, q: Pub, q': Pub,
                    a: PubAction)
    requires Reached(w, AllRules(w), made, State(sh, Pair(Publication0(w, id), PubProc(q))))
    requires PubStep(w, sh, sh', q, q', a)
    ensures Reached(w, AllRules(w), made, State(sh', Pair(Publication0(w, id), PubProc(q'))))
  {
    ReachSecond(w, AllRules(w), made, sh, sh', Publication0(w, id), PubProc(q), PubProc(q'), ByPub(a));
  }

  lemma ChangerBegins(w: World, id: Identity)
    ensures CanBegin(AfterAnswer(w, id), PubProc(Changer(w, id, None, PubCalled)))
    ensures ProcDraws(TheLog(w), PubProc(Changer(w, id, None, PubCalled)))
  {
    NotRetired(id, true, 4, id);
    assert TheLog(w)(id)[1] == Second(w, id)[0];
    assert InLog(TheLog(w)(id), Second(w, id)[0]);
  }

  lemma ReachChanging(w: World, id: Identity)
    requires SegmentsHaveSize(w, id) && id.generation < MAX_U64
    ensures Reached(w, AllRules(w), Promises(w, id), Together(w, id, Changer(w, id, None, PubCalled)))
  {
    ReachAnswered(w, id);
    ChangerBegins(w, id);
    ReachReplaceSecond(w, AllRules(w), Promises(w, id), AfterAnswer(w, id).sh, Publication0(w, id),
                       PubProc(Asker(w, id, true, PubQuiet)), PubProc(Changer(w, id, None, PubCalled)));
  }

  lemma ReachChangePlaced(w: World, id: Identity)
    requires SegmentsHaveSize(w, id) && id.generation < MAX_U64
    ensures Reached(w, AllRules(w), Promises(w, id),
                    State(Sh(id, true, 4, Store2(w, id), 4),
                          Pair(Publication0(w, id), PubProc(Changer(w, id, Ld(w, id), PubPlaced(0))))))
  {
    ReachChanging(w, id);
    var e := Sh(id, true, 4, Store2(w, id), 4);
    SourceStands(w, id, true, 4, Store2(w, id), 4);
    ChangingSteps(w, id, e);
    ChangerActs(w, Promises(w, id), id, e, e, Changer(w, id, None, PubCalled), Changer(w, id, None, PubChecked),
                PubEnsure);
    ChangerActs(w, Promises(w, id), id, e, e, Changer(w, id, None, PubChecked), Changer(w, id, Ld(w, id), PubChecked),
                PubLoad);
    ChangerActs(w, Promises(w, id), id, e, e, Changer(w, id, Ld(w, id), PubChecked),
                Changer(w, id, Ld(w, id), PubPlaced(0)), PubPlace);
  }

  lemma ReachChangeCreated(w: World, id: Identity)
    requires SegmentsHaveSize(w, id) && id.generation < MAX_U64
    ensures Reached(w, AllRules(w), Promises(w, id),
                    State(Sh(id, true, 5, Store3(w, id), 5),
                          Pair(Publication0(w, id), PubProc(Changer(w, id, Ld(w, id), PubCreated(0))))))
  {
    ReachChangePlaced(w, id);
    RenewingStep(w, id);
    CreatingStep(w, id);
    var f := Sh(id, true, 5, Store2(w, id), 4);
    ChangerActs(w, Promises(w, id), id, Sh(id, true, 4, Store2(w, id), 4), f, Changer(w, id, Ld(w, id), PubPlaced(0)),
                Changer(w, id, Ld(w, id), PubRenewed(0)), PubRenew1(0, 60_000));
    ChangerActs(w, Promises(w, id), id, f, Sh(id, true, 5, Store3(w, id), 5), Changer(w, id, Ld(w, id), PubRenewed(0)),
                Changer(w, id, Ld(w, id), PubCreated(0)), PubCreate);
  }

  lemma ReachChanged(w: World, id: Identity)
    requires SegmentsHaveSize(w, id) && id.generation < MAX_U64
    ensures Reached(w, AllRules(w), Promises(w, id),
                    State(Sh(id, true, 5, Store4(w, id), 6), Pair(Publication0(w, id), PubProc(Changed(w, id)))))
  {
    ReachChangeCreated(w, id);
    ArmingStep(w, id);
    SwappingStep(w, id);
    var g := Sh(id, true, 5, Store3(w, id), 5);
    ChangerActs(w, Promises(w, id), id, g, g, Changer(w, id, Ld(w, id), PubCreated(0)),
                Changer(w, id, Ld(w, id), PubArmed(0)), PubRenew2(0, 60_000));
    ChangerActs(w, Promises(w, id), id, g, Sh(id, true, 5, Store4(w, id), 6), Changer(w, id, Ld(w, id), PubArmed(0)),
                Changed(w, id), PubSwap);
  }

  // ---------------------------------------------------------------- 5. the first copier withdraws

  lemma RecheckingStep(w: World, id: Identity)
    ensures var h, r := Sh(id, true, 5, Store4(w, id), 6), Result0(w, id);
            CopyStep(w, h, h, Full(w, id, 0, CopyPublished(r, 3)), Full(w, id, 0, CopyWithdrawing(r, 3)), CopyRecheck)
  {
    assert ManifestKey(id) != ManifestKey(NextGeneration(id));
  }

  lemma WithdrawingStep(w: World, id: Identity)
    ensures var h, r := Sh(id, true, 5, Store4(w, id), 6), Result0(w, id);
            CopyStep(w, h, Remove(h, ManifestKey(NextGeneration(id))), Full(w, id, 0, CopyWithdrawing(r, 3)),
                     Full(w, id, 0, CopyQuiet), CopyWithdraw)
  {
    assert ManifestKey(id) != ManifestKey(NextGeneration(id));
  }

  function Lost(w: World, id: Identity): State {
    State(Remove(Sh(id, true, 5, Store4(w, id), 6), ManifestKey(NextGeneration(id))),
          Pair(CopyProc(Full(w, id, 0, CopyQuiet)), PubProc(Changed(w, id))))
  }

  lemma ReachLost(w: World, id: Identity)
    requires SegmentsHaveSize(w, id) && id.generation < MAX_U64
    ensures Reached(w, AllRules(w), Promises(w, id), Lost(w, id))
  {
    ReachChanged(w, id);
    RecheckingStep(w, id);
    WithdrawingStep(w, id);
    var h, q := Sh(id, true, 5, Store4(w, id), 6), PubProc(Changed(w, id));
    var c1 := CopyProc(Full(w, id, 0, CopyWithdrawing(Result0(w, id), 3)));
    ReachFirst(w, AllRules(w), Promises(w, id), h, h, Publication0(w, id), c1, q, ByCopy(CopyRecheck));
    ReachFirst(w, AllRules(w), Promises(w, id), h, Lost(w, id).sh, c1, CopyProc(Full(w, id, 0, CopyQuiet)), q,
               ByCopy(CopyWithdraw));
  }

  lemma NothingLeft(w: World, id: Identity)
    ensures var last := Lost(w, id).sh;
            && ManifestKey(NextGeneration(id)) !in last.store
            && !IsRetired(last.h.control, NextGeneration(id))
            && FindGeneration(last.h.control.generations, NextGeneration(id)).Some?
  {
    NotRetired(id, true, 5, NextGeneration(id));
    assert Gens(NextGeneration(id))[0].identity == NextGeneration(id);
  }

  /** A run that meets every hypothesis, in which a copy to the next generation returns Ok having found the
      manifest in place, and a publication there is acknowledged while the stored manifest covers it, and which
      ends with the generation cataloged, not retired, and without any manifest: a restore would return the
      empty checkpoint. */
  lemma AcknowledgementCanBeLost(w: World, id: Identity)
    returns (ss: seq<State>, ls: seq<Label>, copied: nat, answered: nat)
    requires SegmentsHaveSize(w, id) && id.generation < MAX_U64
    ensures LogRun(w, TheLog(w), ss, ls) && Disciplined(w, {}, ss, ls)
    ensures copied < |ls| && Happens(ss, ls, copied, CopyPromise(w, id))
    ensures answered < |ls| && Happens(ss, ls, answered, Answered(NextGeneration(id), Batch(w, id)))
    ensures var last := ss[|ss| - 1].sh;
            && ManifestKey(NextGeneration(id)) !in last.store
            && !IsRetired(last.h.control, NextGeneration(id))
            && FindGeneration(last.h.control.generations, NextGeneration(id)).Some?
  {
    ReachLost(w, id);
    var promised, answer := CopyPromise(w, id), Answered(NextGeneration(id), Batch(w, id));
    assert promised in Promises(w, id) && answer in Promises(w, id);
    ss, ls := RunReaching(w, AllRules(w), Promises(w, id), Lost(w, id));
    ObeysAll(w, TheLog(w), ss, ls);
    copied := WhenMade(ss, ls, promised);
    answered := WhenMade(ss, ls, answer);
    NothingLeft(w, id);
  }

  // ---------------------------------------------------------------- why every waiting copier is a threat

  /** A copier that is ready to create its manifest is a threat even while a different manifest is stored: a
      publisher may bring the stored manifest to exactly the copier's, whose create then takes that version for
      its own. */
  lemma WaitingCopierCatchesUp(w: World, id: Identity, sh: Shared, sh': Shared, p: Pub, p': Pub)
    requires HasManifest(sh.store, NextGeneration(id), EmptyManifest(NextGeneration(id)))
    requires p.id == NextGeneration(id) && p.entries == Batch(w, id) && p.pc == PubArmed(0)
    requires p.loaded.Some? && p.loaded.value.manifest == EmptyManifest(p.id) && PubStep(w, sh, sh', p, p', PubSwap)
    ensures var waiting := Full(w, id, 0, CopyReady(Result0(w, id)));
            var armed := Full(w, id, 0, CopyPublished(Result0(w, id), sh.version));
            && !HasManifest(sh.store, waiting.target, Goods(waiting))
            && CopyStep(w, sh', sh', waiting, armed, CopyPublish)
            && Threatens(sh', CopyProc(armed), waiting.target)
  {
    CopyIsTaken(w, id);
    SameFirstEntry(w, id);
    assert Batch(w, id)[0..] == Batch(w, id);
  }
}
