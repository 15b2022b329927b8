/**
 That calls get through.  An executor that holds its plan's barrier finishes the sweep, if nobody interferes,
 whatever earlier executions of the plan have left: it skips what they recorded, deletes what is still there,
 notes what is missing, and reports; and then the barrier can be cleared.  A publisher whose batch meets the tip
 swaps it in, also after a lost attempt, and a reader always has a next step.
 */
module ArchiveExecution {
  import opened Model
  import opened Checkpoint
  import opened Publication
  import opened GcControl
  import opened GcLaws
  import opened GcPlanning
  import opened GcHistory
  import opened Archive

  /** A stretch of one executor's steps, with nobody else's in between, from its first shared state and executor. */
  datatype Stretch = End(sh: Shared, p: Exec) | Step(sh: Shared, p: Exec, a: ExecAction, rest: Stretch)

  ghost predicate IsStretch(w: World, r: Stretch) {
    match r
    case End(_, _) => true
    case Step(sh, p, a, rest) => ExecStep(w, sh, rest.sh, p, rest.p, a) && IsStretch(w, rest)
  }

  function LastShared(r: Stretch): Shared {
    match r
    case End(sh, _) => sh
    case Step(_, _, _, rest) => LastShared(rest)
  }

  function LastExec(r: Stretch): Exec {
    match r
    case End(_, p) => p
    case Step(_, _, _, rest) => LastExec(rest)
  }

  /** Nothing stands in the way of this candidate: an earlier execution has recorded it, or it is missing, or it is
      still there at its planned version. */
  predicate Open(sh: Shared, planHash: Hash, c: Candidate) {
    if (planHash, c.key) in sh.evidence then
      var e := sh.evidence[(planHash, c.key)];
      e.planHash == planHash && e.key == c.key && e.version == c.version
    else
      c.key in sh.store ==> sh.store[c.key].version == c.version
  }

  /** An executor in its sweep that may go on. */
  ghost predicate MayGoOn(w: World, sh: Shared, p: Exec) {
    && p.planHash in sh.plans && p.pc.ExecSweeping?
    && var plan := sh.plans[p.planHash];
       && SoundPlan(w, plan) && plan.hash == p.planHash && EachOnce(plan.candidates)
       && ValidateFence(sh.h.control, plan, p.now).Ok?
       && |p.pc.results| <= |plan.candidates|
       && forall n :: |p.pc.results| <= n < |plan.candidates| ==> Open(sh, p.planHash, plan.candidates[n])
  }

  /** What a sweep does to the shared state: objects that are candidates may go, evidence is added. */
  ghost predicate Swept(sh: Shared, sh': Shared, plan: Plan, from: nat) {
    && sh' == sh.(store := sh'.store, evidence := sh'.evidence)
    && (forall k :: k in sh'.store ==> k in sh.store && sh'.store[k] == sh.store[k])
    && (forall k :: k in sh.store && k !in sh'.store ==> exists c :: c in plan.candidates && c.key == k)
    && (forall n :: from <= n < |plan.candidates| ==>
          (plan.hash, plan.candidates[n].key) in sh.evidence || plan.candidates[n].key !in sh'.store)
  }

  /** The next candidate, already recorded by an earlier execution. */
  lemma SkipsNext(w: World, sh: Shared, p: Exec) returns (p': Exec)
    requires MayGoOn(w, sh, p) && |p.pc.results| < |sh.plans[p.planHash].candidates|
    requires (p.planHash, sh.plans[p.planHash].candidates[|p.pc.results|].key) in sh.evidence
    ensures ExecStep(w, sh, sh, p, p', ExecSkip) && MayGoOn(w, sh, p')
    ensures |p'.pc.results| == |p.pc.results| + 1 && p'.planHash == p.planHash
  {
    var c := sh.plans[p.planHash].candidates[|p.pc.results|];
    assert Open(sh, p.planHash, c);
    p' := p.(pc := ExecSweeping(p.pc.results + [sh.evidence[(p.planHash, c.key)]]));
  }

  /** The next candidate, tried and recorded by this one. */
  lemma TriesNext(w: World, sh: Shared, p: Exec) returns (sh1: Shared, p1: Exec, sh2: Shared, p2: Exec)
    requires MayGoOn(w, sh, p) && |p.pc.results| < |sh.plans[p.planHash].candidates|
    requires (p.planHash, sh.plans[p.planHash].candidates[|p.pc.results|].key) !in sh.evidence
    ensures ExecStep(w, sh, sh1, p, p1, ExecDelete) && ExecStep(w, sh1, sh2, p1, p2, ExecRecord)
    ensures MayGoOn(w, sh2, p2) && |p2.pc.results| == |p.pc.results| + 1 && p2.planHash == p.planHash
    ensures var c := sh.plans[p.planHash].candidates[|p.pc.results|];
            && sh2 == sh.(store := sh.store - {c.key}, evidence := sh2.evidence)
            && sh2.evidence.Keys == sh.evidence.Keys + {(p.planHash, c.key)}
            && (sh2.evidence[(p.planHash, c.key)].outcome.Deleted? <==> c.key in sh.store)
  {
    var plan := sh.plans[p.planHash];
    var c := plan.candidates[|p.pc.results|];
    assert Open(sh, p.planHash, c) && c in plan.candidates;
    var outcome := if c.key in sh.store then Deleted else AlreadyMissing;
    sh1, p1 := if c.key in sh.store then Remove(sh, c.key) else sh, p.(pc := ExecDeleted(p.pc.results, outcome));
    assert c.key !in sh.store ==> sh.store - {c.key} == sh.store;
    var e := EvidenceOf(p1, c, outcome);
    sh2 := sh1.(evidence := sh1.evidence[(p.planHash, c.key) := e]);
    p2 := p1.(pc := ExecSweeping(p.pc.results + [e]));
    forall n | |p2.pc.results| <= n < |plan.candidates| ensures Open(sh2, p.planHash, plan.candidates[n]) {
      assert Open(sh, p.planHash, plan.candidates[n]) && plan.candidates[n].key != c.key;
    }
  }

  lemma SweptOneMore(sh: Shared, mid: Shared, last: Shared, plan: Plan, n: nat)
    requires n < |plan.candidates| && Swept(mid, last, plan, n + 1)
    requires var c := plan.candidates[n];
             || (mid == sh && (plan.hash, c.key) in sh.evidence)
             || (&& mid == sh.(store := sh.store - {c.key}, evidence := mid.evidence)
                 && mid.evidence.Keys == sh.evidence.Keys + {(plan.hash, c.key)})
    requires EachOnce(plan.candidates)
    ensures Swept(sh, last, plan, n)
  {
    var c := plan.candidates[n];
    assert c in plan.candidates;
    forall k | n <= k < |plan.candidates|
      ensures (plan.hash, plan.candidates[k].key) in sh.evidence || plan.candidates[k].key !in last.store
    {
      if k > n { assert plan.candidates[k].key != c.key; }
    }
  }

  /** The rest of a sweep.  It ends with a result for each candidate; only candidates have gone, and every one that was
      not recorded before is gone. */
  lemma {:induction false} SweepFinishes(w: World, sh: Shared, p: Exec) returns (r: Stretch)
    requires MayGoOn(w, sh, p)
    ensures IsStretch(w, r) && r.sh == sh && r.p == p
    ensures var last, plan := LastExec(r), sh.plans[p.planHash];
            && last.planHash == p.planHash && MayGoOn(w, LastShared(r), last)
            && |last.pc.results| == |plan.candidates| && Swept(sh, LastShared(r), plan, |p.pc.results|)
    decreases |sh.plans[p.planHash].candidates| - |p.pc.results|
  {
    var plan := sh.plans[p.planHash];
    var n := |p.pc.results|;
    if n == |plan.candidates| {
      r := End(sh, p);
    } else if (p.planHash, plan.candidates[n].key) in sh.evidence {
      var p1 := SkipsNext(w, sh, p);
      r := SweepFinishes(w, sh, p1);
      SweptOneMore(sh, sh, LastShared(r), plan, n);
      r := Step(sh, p, ExecSkip, r);
    } else {
      var sh1, p1, sh2, p2 := TriesNext(w, sh, p);
      r := SweepFinishes(w, sh2, p2);
      SweptOneMore(sh, sh2, LastShared(r), plan, n);
      r := Step(sh, p, ExecDelete, Step(sh1, p1, ExecRecord, r));
    }
  }

  /** An execution that may go on finishes, if nobody interferes: its sweep ends, and two more steps report and clear
      the barrier.  The report that then exists is the one it returns; only candidates of the plan have left the
      store, and of those it tried none is left. */
  lemma ExecutionFinishes(w: World, sh: Shared, p: Exec)
    returns (r: Stretch, reported: Shared, p1: Exec, cleared: Shared, p2: Exec)
    requires MayGoOn(w, sh, p) && !(p.planHash in sh.reports)
    ensures IsStretch(w, r) && r.sh == sh && r.p == p
    ensures ExecStep(w, LastShared(r), reported, LastExec(r), p1, ExecReport)
    ensures ExecStep(w, reported, cleared, p1, p2, ExecClear)
    ensures p2.pc.ExecDone? && p.planHash in cleared.reports && cleared.reports[p.planHash] == p2.pc.report
    ensures |p2.pc.report.results| == |sh.plans[p.planHash].candidates| && cleared.h.control.active.None?
    ensures Swept(sh, LastShared(r), sh.plans[p.planHash], |p.pc.results|) && cleared.store == LastShared(r).store
  {
    var plan := sh.plans[p.planHash];
    r := SweepFinishes(w, sh, p);
    var last, q := LastShared(r), LastExec(r);
    var report := Report(q.planHash, ExecutionFence(plan), q.now, q.pc.results);
    reported := last.(reports := last.reports[q.planHash := report]);
    p1 := q.(pc := ExecReported(report));
    FenceCheckExactly(last.h.control, plan, q.now);
    ClearExactly(w, last.h.control, plan);
    var control := Apply(w, last.h.control, ClearBarrier(plan)).value;
    cleared := reported.(h := reported.h.(control := control));
    p2 := p1.(pc := ExecDone(report));
  }

  // ---------------------------------------------------------------- reaching the sweep

  /** The control after an operation that is accepted. */
  function After(w: World, sh: Shared, op: ControlOp): Shared
    requires Apply(w, sh.h.control, op).Ok? && !op.AcquireBarrier? && !op.EnterDelete?
  {
    sh.(h := sh.h.(control := Apply(w, sh.h.control, op).value))
  }

  /** An executor that has entered the delete phase, and finds the root as planned, reads it, fences it and retires the
      plan's generations: the manifest is rewritten as it was, under a new version. */
  lemma FenceIsReached(w: World, sh: Shared, p: Exec)
    returns (got: Exec, fenced: Shared, past: Exec, retired: Shared, sweeping: Exec)
    requires p.planHash in sh.plans && p.pc.ExecEntered? && p.now <= sh.h.clock
    requires var plan := sh.plans[p.planHash];
             && Genuine(w, plan) && Apply(w, sh.h.control, RetirePlan(plan, p.now)).Ok?
             && ManifestKey(plan.root) in sh.store && w.sha(sh.store[ManifestKey(plan.root)].blob) == plan.rootSha
    ensures ExecStep(w, sh, sh, p, got, ExecGet) && ExecStep(w, sh, fenced, got, past, ExecFence)
    ensures ExecStep(w, fenced, retired, past, sweeping, ExecRetire) && sweeping.pc == ExecSweeping([])
    ensures var root := ManifestKey(sh.plans[p.planHash].root);
            retired.store == sh.store[root := Obj(sh.store[root].blob, sh.version, sh.h.clock)]
    ensures forall id :: id in sh.plans[p.planHash].swept ==>
              RetiredBy(retired.h.control, id, sh.plans[p.planHash].hash)
  {
    var plan := sh.plans[p.planHash];
    var root := ManifestKey(plan.root);
    got := p.(pc := ExecGot(sh.store[root].version), tenure := sh.tenure);
    fenced, past := Write(sh, root, sh.store[root].blob), got.(pc := ExecFenced);
    RetireExactly(w, fenced.h.control, plan, p.now);
    retired, sweeping := After(w, fenced, RetirePlan(plan, p.now)), past.(pc := ExecSweeping([]));
  }

  /** An executor whose fencing write lost notices it and goes on if and only if the root is still as planned. */
  lemma ContendedExactly(w: World, sh: Shared, p: Exec) returns (lost: Exec)
    requires p.planHash in sh.plans && p.pc.ExecGot?
    requires var root := ManifestKey(sh.plans[p.planHash].root);
             !(root in sh.store && sh.store[root].version == p.pc.version)
    ensures ExecStep(w, sh, sh, p, lost, ExecContend)
    ensures var root := ManifestKey(sh.plans[p.planHash].root);
            ExecStep(w, sh, sh, lost, p.(pc := ExecFenced), ExecRecheck) <==>
              root in sh.store && w.sha(sh.store[root].blob) == sh.plans[p.planHash].rootSha
  {
    lost := p.(pc := ExecContended);
    assert lost.(pc := ExecFenced) == p.(pc := ExecFenced);
  }

  /** An execution of a plan that has a report returns that report, at whatever point it is. */
  lemma ReportIsAdoptedExactly(w: World, sh: Shared, p: Exec, report: Report)
    ensures ExecStep(w, sh, sh, p, p.(pc := ExecDone(report)), ExecAdopt) <==>
              p.planHash in sh.reports && sh.reports[p.planHash] == report
  {
  }

  // ---------------------------------------------------------------- publications

  /** Renewals of this publisher's lease are accepted. */
  ghost predicate MayRenew(c: Control, lease: nat, now: nat) {
    && UniqueLeases(c.leases) && !(BarrierAt(c, now) && IsDeleting(c))
    && forall l :: l in c.leases && l.id == lease && l.expires > now ==> l.kind == LeaseKind.Publisher
  }

  /** The second renewal is accepted if the first was. */
  lemma RenewsAgain(w: World, c: Control, lease: nat, now: nat, duration: nat)
    requires MayRenew(c, lease, now)
    ensures var r := Apply(w, c, RenewLease(LeaseKind.Publisher, lease, now, duration));
            r.Ok? && MayRenew(r.value, lease, now)
  {
    RenewAccepts(w, c, LeaseKind.Publisher, lease, now, duration);
    RenewGrants(w, c, LeaseKind.Publisher, lease, now, duration);
    RenewKeepsBarrier(w, c, LeaseKind.Publisher, lease, now, duration);
    OpKeepsLeasesUnique(w, c, RenewLease(LeaseKind.Publisher, lease, now, duration));
  }

  /** A publisher that is to load the manifest, for the first time or after a lost attempt. */
  predicate Starting(p: Pub) {
    p.pc.PubChecked? || p.pc.PubLost?
  }

  /** What a batch needs to be published: it is a chain that meets the tip of a restorable manifest and ends above it,
      its segment is a proper object whose key is free or holds it already. */
  ghost predicate Publishable(w: World, store: Store, id: Identity, m: Manifest, es: seq<Entry>) {
    && ValidManifest(id, m) && Restore(w, store, id, m).Ok?
    && es != [] && ValidPublication(w, id, es) && m.tip.index < es[|es| - 1].index < MAX_U64
    && m.tip.index < es[0].index + |es| && MeetsTip(es, m.tip)
    && var k := m.tip.index + 1 - es[0].index;
       && 0 <= k < |es| && w.size(SegmentBlob(es[k..])) != 0
       && var key := RecordOf(w, id, es[k..]).key;
          key in store ==> store[key].blob == SegmentBlob(es[k..])
  }

  lemma Places(w: World, sh: Shared, p: Pub, m: Manifest) returns (loaded: Pub, placed: Pub, k: nat)
    requires Starting(p) && HasManifest(sh.store, p.id, m) && Publishable(w, sh.store, p.id, m, p.entries)
    ensures PubStep(w, sh, sh, p, loaded, PubLoad) && PubStep(w, sh, sh, loaded, placed, PubPlace)
    ensures k == m.tip.index + 1 - p.entries[0].index < |p.entries| && Chained(w, p.id, p.entries[k..], m.tip)
    ensures placed == p.(loaded := Some(Loaded(m, sh.store[ManifestKey(p.id)].version)), pc := PubPlaced(k))
  {
    var version := sh.store[ManifestKey(p.id)].version;
    loaded := p.(loaded := Some(Loaded(m, version)), pc := PubChecked);
    PlacedExactly(w, sh.store, p.id, m, p.entries);
    SuffixStartChains(w, sh.store, p.id, m, p.entries);
    k := m.tip.index + 1 - p.entries[0].index;
    placed := loaded.(pc := PubPlaced(k));
  }

  /** A publisher past placement, nobody in its way. */
  ghost predicate Undisturbed(w: World, sh: Shared, p: Pub, m: Manifest, k: nat, now: nat) {
    && p.loaded.Some? && p.loaded.value.manifest == m && StoredAs(sh.store, p.id, p.loaded.value)
    && ValidManifest(p.id, m) && k < |p.entries| && Chained(w, p.id, p.entries[k..], m.tip)
    && p.entries[|p.entries| - 1].index < MAX_U64 && w.size(SegmentBlob(p.entries[k..])) != 0
    && now <= sh.h.clock && MayRenew(sh.h.control, p.lease, now) && !InDeletePhase(sh)
  }

  lemma RenewsFirst(w: World, sh: Shared, p: Pub, m: Manifest, k: nat, now: nat, duration: nat)
    returns (s1: Shared, p1: Pub)
    requires Undisturbed(w, sh, p, m, k, now) && p.pc == PubPlaced(k)
    ensures PubStep(w, sh, s1, p, p1, PubRenew1(now, duration)) && Undisturbed(w, s1, p1, m, k, now)
    ensures p1 == p.(pc := PubRenewed(k)) && s1.store == sh.store
  {
    RenewsAgain(w, sh.h.control, p.lease, now, duration);
    s1, p1 := After(w, sh, RenewLease(LeaseKind.Publisher, p.lease, now, duration)), p.(pc := PubRenewed(k));
  }

  /** The first renewal, and the segment. */
  lemma CreatesSegment(w: World, sh: Shared, p: Pub, m: Manifest, k: nat, now: nat, duration: nat)
    returns (s1: Shared, p1: Pub, s2: Shared, p2: Pub)
    requires Undisturbed(w, sh, p, m, k, now) && p.pc == PubPlaced(k)
    requires var key := RecordOf(w, p.id, p.entries[k..]).key;
             key in sh.store ==> sh.store[key].blob == SegmentBlob(p.entries[k..])
    ensures PubStep(w, sh, s1, p, p1, PubRenew1(now, duration)) && PubStep(w, s1, s2, p1, p2, PubCreate)
    ensures Undisturbed(w, s2, p2, m, k, now) && p2 == p.(pc := PubCreated(k))
  {
    s1, p1 := RenewsFirst(w, sh, p, m, k, now, duration);
    var es := p.entries[k..];
    var key := RecordOf(w, p.id, es).key;
    s2, p2 := if key in s1.store then s1 else Write(s1, key, SegmentBlob(es)), p1.(pc := PubCreated(k));
  }

  /** The second renewal, and the swap. */
  lemma SwapsIn(w: World, sh: Shared, p: Pub, m: Manifest, k: nat, now: nat, duration: nat)
    returns (s1: Shared, p1: Pub, s2: Shared, p2: Pub)
    requires Undisturbed(w, sh, p, m, k, now) && p.pc == PubCreated(k)
    ensures PubStep(w, sh, s1, p, p1, PubRenew2(now, duration)) && PubStep(w, s1, s2, p1, p2, PubSwap)
    ensures p2.pc.PubQuiet? && HasManifest(s2.store, p.id, AppendRecord(m, RecordOf(w, p.id, p.entries[k..])))
  {
    var es := p.entries[k..];
    AppendExtends(w, p.id, m, es);
    assert es[|es| - 1] == p.entries[|p.entries| - 1];
    RenewsAgain(w, sh.h.control, p.lease, now, duration);
    s1, p1 := After(w, sh, RenewLease(LeaseKind.Publisher, p.lease, now, duration)), p.(pc := PubArmed(k));
    var next := AppendRecord(m, RecordOf(w, p.id, es));
    s2 := Write(s1, ManifestKey(p.id), ManifestBlob(next));
    p2 := p1.(loaded := Some(Loaded(next, s1.version)), pc := PubQuiet);
  }

  /** A publisher whose batch meets the tip gets it in, if nobody interferes, on its first attempt or after a lost
      one: it loads the manifest, places the batch, renews, creates the segment, renews and swaps. */
  lemma PublicationFinishes(w: World, sh: Shared, p: Pub, m: Manifest, now: nat, duration: nat)
    returns (loaded: Pub, placed: Pub, s1: Shared, p1: Pub, s2: Shared, p2: Pub, s3: Shared, p3: Pub, s4: Shared,
             p4: Pub)
    requires Starting(p) && HasManifest(sh.store, p.id, m) && Publishable(w, sh.store, p.id, m, p.entries)
    requires now <= sh.h.clock && MayRenew(sh.h.control, p.lease, now) && !InDeletePhase(sh)
    ensures PubStep(w, sh, sh, p, loaded, PubLoad) && PubStep(w, sh, sh, loaded, placed, PubPlace)
    ensures PubStep(w, sh, s1, placed, p1, PubRenew1(now, duration)) && PubStep(w, s1, s2, p1, p2, PubCreate)
    ensures PubStep(w, s2, s3, p2, p3, PubRenew2(now, duration)) && PubStep(w, s3, s4, p3, p4, PubSwap)
    ensures p4.pc.PubQuiet? && m.tip.index + 1 - p.entries[0].index < |p.entries|
    ensures var es := p.entries[m.tip.index + 1 - p.entries[0].index..];
            es != [] && HasManifest(s4.store, p.id, AppendRecord(m, RecordOf(w, p.id, es)))
  {
    var k;
    loaded, placed, k := Places(w, sh, p, m);
    s1, p1, s2, p2 := CreatesSegment(w, sh, placed, m, k, now, duration);
    s3, p3, s4, p4 := SwapsIn(w, s2, p2, m, k, now, duration);
  }

  /** A publisher that has lost its swap can start over, at any time. */
  lemma LostPublisherStartsOver(w: World, sh: Shared, p: Pub) returns (p': Pub)
    requires p.pc.PubArmed? && p.loaded.Some?
    requires !(ManifestKey(p.id) in sh.store && sh.store[ManifestKey(p.id)].version == p.loaded.value.version)
    ensures PubStep(w, sh, sh, p, p', PubRetry) && Starting(p')
  {
    p' := p.(loaded := None, pc := PubLost);
  }

  // ---------------------------------------------------------------- restores

  /** A reader that has loaded its manifest always has a next step, which reads one object more or ends the restore. */
  lemma ReaderGoesOn(w: World, sh: Shared, p: Read) returns (p': Read, a: ReadAction)
    requires ReadHolding(p.pc) && (p.pc.ReadSegments? ==> p.pc.n <= |p.pc.manifest.segments|)
    ensures ReadStep(w, sh, sh, p, p', a)
    ensures || p'.pc.ReadFailed? || p'.pc.ReadDone? || (p.pc.ReadLoaded? && p'.pc.ReadSegments? && p'.pc.n == 0)
            || (p.pc.ReadSegments? && p'.pc.ReadSegments? && p'.pc.n == p.pc.n + 1)
  {
    var m := p.pc.manifest;
    if p.pc.ReadLoaded? {
      var got := RestoreBase(w, sh.store, m.base);
      a := ReadBase;
      p' := p.(pc := if got.Err? then ReadFailed(got.error) else ReadSegments(m, got.value, [], 0));
    } else if p.pc.n < |m.segments| {
      var got := LoadSegment(w, sh.store, p.id, m.segments[p.pc.n]);
      a := ReadSegment;
      p' := p.(pc := if got.Err? then ReadFailed(got.error)
                     else if !Chained(w, p.id, got.value, EndTip(p.pc.es, BaseTip(m.base)))
                     then ReadFailed(InvalidCheckpoint)
                     else p.pc.(es := p.pc.es + got.value, n := p.pc.n + 1));
    } else {
      a := ReadFinish;
      p' := p.(pc := if EndTip(p.pc.es, BaseTip(m.base)) != m.tip then ReadFailed(InvalidCheckpoint)
                     else ReadDone(m, Restored(p.pc.snapshot, p.pc.es, m.tip)));
    }
  }
}
