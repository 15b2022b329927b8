/**
 The theorems about whole runs of the archive.
 */
module ArchiveTheorems {
  import opened Model
  import opened Checkpoint
  import opened Copying
  import opened GcControl
  import opened GcHistory
  import opened GcPlanning
  import opened Archive
  import opened ArchiveSafety
  import opened ArchiveProof
  import opened ArchiveActors

  /** A run starts from any consistent store (possibly holding checkpoints written earlier, in either
      format), an empty control object, and no process. */
  ghost predicate InitState(w: World, s: State) {
    && InitHistory(s.sh.h)
    && StoreInv(s.sh) && LiveInv(w, s.sh)
    && s.sh.plans == map[] && s.sh.evidence == map[] && s.sh.reports == map[]
    && s.procs == map[]
  }

  ghost predicate IsRun(w: World, ss: seq<State>, ls: seq<Label>) {
    && |ss| == |ls| + 1
    && InitState(w, ss[0])
    && forall i :: 0 <= i < |ls| ==> Next(w, ss[i], ss[i + 1], ls[i])
  }

  /** The hypotheses of the safety theorems: see `LeasesHeld` and `InTenure`. */
  ghost predicate Disciplined(w: World, tracked: set<nat>, ss: seq<State>, ls: seq<Label>)
    requires |ss| == |ls| + 1
  {
    && (forall i :: 0 <= i < |ss| ==> LeasesHeld(tracked, ss[i]))
    && (forall i :: 0 <= i < |ls| ==> InTenure(w, ss[i], ls[i]))
  }

  // ---------------------------------------------------------------- one step

  /** The control operation a step performs, if any. */
  function OpOf(sh: Shared, p: Proc, a: Action): Option<ControlOp> {
    match a
    case ByPub(PubRenew1(now, duration)) =>
      if p.PubProc? then Some(RenewLease(Publisher, p.pub.lease, now, duration)) else None
    case ByPub(PubRenew2(now, duration)) =>
      if p.PubProc? then Some(RenewLease(Publisher, p.pub.lease, now, duration)) else None
    case ByPub(PubMigrate(now, duration)) =>
      if p.PubProc? then Some(RenewLease(Publisher, p.pub.lease, now, duration)) else None
    case BySnap(SnapRenew1(now, duration)) =>
      if p.SnapProc? then Some(RenewLease(Publisher, p.snap.lease, now, duration)) else None
    case BySnap(SnapRenew2(now, duration)) =>
      if p.SnapProc? then Some(RenewLease(Publisher, p.snap.lease, now, duration)) else None
    case ByRead(ReadLease(now, duration)) =>
      if p.ReadProc? then Some(AcquireLease(Reader, p.read.lease, now, duration)) else None
    case ByRead(ReadRenew(now, duration)) =>
      if p.ReadProc? then Some(RenewLease(Reader, p.read.lease, now, duration)) else None
    case ByCopy(x) => if p.CopyProc? then CopyOp(p.copier, x) else None
    case ByExec(x) =>
      if p.ExecProc? && p.exec.planHash in sh.plans then ExecOp(sh.plans[p.exec.planHash], p.exec.now, x) else None
    case _ => None
  }

  function CopyOp(p: Copier, a: CopyAction): Option<ControlOp> {
    match a
    case CopyLeaseSource(now, duration) => Some(AcquireLease(Reader, p.sourceLease, now, duration))
    case CopyLeaseTarget(now, duration) => Some(AcquireLease(Publisher, p.targetLease, now, duration))
    case CopyRestore(ReadRenew(now, duration)) => Some(RenewLease(Reader, p.sourceLease, now, duration))
    case CopyRenew(kind, now, duration) =>
      Some(RenewLease(kind, if kind == Reader then p.sourceLease else p.targetLease, now, duration))
    case CopyRegister(now) => Some(Register(p.target, now))
    case _ => None
  }

  function ExecOp(plan: Plan, now: nat, a: ExecAction): Option<ControlOp> {
    match a
    case ExecBarrier => Some(AcquireBarrier(plan, now))
    case ExecEnter => Some(EnterDelete(plan, now))
    case ExecRetire => Some(RetirePlan(plan, now))
    case ExecClear => Some(ClearBarrier(plan))
    case _ => None
  }

  /** A step moves the history of the control object by its operation, or not at all. */
  ghost predicate MovesHistory(w: World, sh: Shared, sh': Shared, op: Option<ControlOp>) {
    match op
    case None => sh'.h == sh.h
    case Some(x) => OpStep(w, sh.h, sh'.h, x)
  }

  lemma CopyMovesHistory(w: World, sh: Shared, sh': Shared, p: Copier, p': Copier, a: CopyAction)
    requires CopyStep(w, sh, sh', p, p', a)
    ensures MovesHistory(w, sh, sh', CopyOp(p, a))
  {
  }

  lemma ExecMovesHistory(w: World, sh: Shared, sh': Shared, p: Exec, p': Exec, a: ExecAction)
    requires ExecStep(w, sh, sh', p, p', a)
    ensures MovesHistory(w, sh, sh', if p.planHash in sh.plans then ExecOp(sh.plans[p.planHash], p.now, a) else None)
  {
  }

  lemma ActMovesHistory(w: World, sh: Shared, sh': Shared, p: Proc, p': Proc, a: Action)
    requires ActorStep(w, sh, sh', p, p', a)
    ensures MovesHistory(w, sh, sh', OpOf(sh, p, a))
  {
    match a
    case ByCopy(x) => CopyMovesHistory(w, sh, sh', p.copier, p'.copier, x);
    case ByExec(x) => ExecMovesHistory(w, sh, sh', p.exec, p'.exec, x);
    case _ =>
  }

  /** The clock never goes back. */
  lemma ClockRuns(w: World, s: State, s': State, l: Label)
    requires Next(w, s, s', l)
    ensures s.sh.h.clock <= s'.sh.h.clock
  {
    if l.Act? {
      ActMovesHistory(w, s.sh, s'.sh, s.procs[l.pid], s'.procs[l.pid], l.action);
    }
  }

  lemma HistoryKept(w: World, sh: Shared, sh': Shared, op: Option<ControlOp>)
    requires CollisionFreePlanHash(w) && HistoryInv(w, sh.h) && MovesHistory(w, sh, sh', op)
    ensures HistoryInv(w, sh'.h)
  {
    if op.Some? { StepKeepsHistoryInv(w, sh.h, sh'.h, Do(op.value)); }
  }

  lemma ActKeepsHistory(w: World, sh: Shared, sh': Shared, p: Proc, p': Proc, a: Action)
    requires CollisionFreePlanHash(w) && HistoryInv(w, sh.h) && ActorStep(w, sh, sh', p, p', a)
    ensures HistoryInv(w, sh'.h)
  {
    ActMovesHistory(w, sh, sh', p, p', a);
    HistoryKept(w, sh, sh', OpOf(sh, p, a));
  }

  lemma ActorKeeps(w: World, s: State, s': State, pid: nat, a: Action, tracked: set<nat>) returns (ch: Change)
    requires CollisionFreeDigest(w) && CoreInv(w, s.sh)
    requires pid in s.procs && pid in s'.procs
    requires ProcInv(w, s.sh, s.procs[pid], pid in tracked) && LeaseHeld(s.sh, s.procs[pid], pid in tracked)
    requires ActorStep(w, s.sh, s'.sh, s.procs[pid], s'.procs[pid], a)
    requires InTenure(w, s, Act(pid, a))
    ensures ProcInv(w, s'.sh, s'.procs[pid], pid in tracked)
    ensures Allowed(w, s.sh, s'.sh, ch)
  {
    var p, p' := s.procs[pid], s'.procs[pid];
    if a.ByPub? {
      ch := PubKeeps(w, s.sh, s'.sh, p.pub, p'.pub, a.pub);
    } else if a.BySnap? {
      ch := SnapKeeps(w, s.sh, s'.sh, p.snap, p'.snap, a.snap);
    } else if a.ByRead? {
      ch := ReadKeeps(w, s.sh, s'.sh, p.read, p'.read, a.read, pid in tracked);
    } else if a.ByCopy? {
      ch := CopyKeeps(w, s.sh, s'.sh, p.copier, p'.copier, a.copy);
    } else if a.ByPlan? {
      ch := PlannerKeeps(w, s.sh, s'.sh, p.planner, p'.planner, a.plan);
    } else {
      ch := ExecKeeps(w, s.sh, s'.sh, p.exec, p'.exec, a.exec);
    }
  }

  lemma BystandersKeep(w: World, s: State, sh': Shared, ch: Change, tracked: set<nat>)
    requires Inv(w, tracked, s) && LeasesHeld(tracked, s) && Allowed(w, s.sh, sh', ch)
    ensures CoreInv(w, sh')
    ensures forall q :: q in s.procs ==> ProcInv(w, sh', s.procs[q], q in tracked)
  {
    AllowedKeepsCore(w, s.sh, sh', ch);
    forall q | q in s.procs ensures ProcInv(w, sh', s.procs[q], q in tracked) {
      Bystander(w, s.sh, sh', ch, s.procs[q], q in tracked);
    }
  }

  lemma BeginKeeps(w: World, s: State, pid: nat, p: Proc, tracked: set<nat>)
    requires Inv(w, tracked, s) && CanBegin(s, p)
    ensures ProcInv(w, s.sh, p, pid in tracked)
  {
    forall q | q in s.procs ensures ProcInv(w, s.sh, s.procs[q], q in tracked) {}
  }

  lemma AdvanceIsChange(w: World, sh: Shared, to: nat)
    requires HistoryInv(w, sh.h) && sh.h.clock <= to
    ensures Allowed(w, sh, sh.(h := sh.h.(clock := to)), ControlChanged)
    ensures HistoryInv(w, sh.h.(clock := to))
  {
  }

  lemma ActKeepsProcs(w: World, s: State, s': State, pid: nat, a: Action, tracked: set<nat>)
    requires WorldOk(w) && Inv(w, tracked, s) && LeasesHeld(tracked, s) && InTenure(w, s, Act(pid, a))
    requires Next(w, s, s', Act(pid, a))
    ensures CoreInv(w, s'.sh) && forall q :: q in s'.procs ==> ProcInv(w, s'.sh, s'.procs[q], q in tracked)
  {
    assert ProcInv(w, s.sh, s.procs[pid], pid in tracked) && LeaseHeld(s.sh, s.procs[pid], pid in tracked);
    var ch := ActorKeeps(w, s, s', pid, a, tracked);
    BystandersKeep(w, s, s'.sh, ch, tracked);
  }

  lemma ActKeepsInv(w: World, s: State, s': State, pid: nat, a: Action, tracked: set<nat>)
    requires WorldOk(w) && Inv(w, tracked, s) && LeasesHeld(tracked, s) && InTenure(w, s, Act(pid, a))
    requires Next(w, s, s', Act(pid, a))
    ensures Inv(w, tracked, s')
  {
    ActKeepsProcs(w, s, s', pid, a, tracked);
    ActKeepsHistory(w, s.sh, s'.sh, s.procs[pid], s'.procs[pid], a);
  }

  /** Every step of a disciplined run keeps the invariant. */
  lemma NextKeepsInv(w: World, s: State, s': State, l: Label, tracked: set<nat>)
    requires WorldOk(w) && Inv(w, tracked, s) && LeasesHeld(tracked, s) && InTenure(w, s, l) && Next(w, s, s', l)
    ensures Inv(w, tracked, s')
  {
    match l
    case Advance(to) =>
      AdvanceIsChange(w, s.sh, to);
      BystandersKeep(w, s, s'.sh, ControlChanged, tracked);
    case Call(op) =>
      StepKeepsHistoryInv(w, s.sh.h, s'.sh.h, Do(op));
      ControlWriteKeeps(w, s.sh, s'.sh, op);
      BystandersKeep(w, s, s'.sh, ControlChanged, tracked);
    case Begin(pid, p) =>
      BeginKeeps(w, s, pid, p, tracked);
    case Act(pid, a) =>
      ActKeepsInv(w, s, s', pid, a, tracked);
  }

  lemma InitInv(w: World, s: State, tracked: set<nat>)
    requires InitState(w, s)
    ensures Inv(w, tracked, s)
  {
  }

  lemma {:induction false} RunKeepsInv(w: World, ss: seq<State>, ls: seq<Label>, tracked: set<nat>, i: nat)
    requires WorldOk(w) && IsRun(w, ss, ls) && Disciplined(w, tracked, ss, ls) && i < |ss|
    ensures Inv(w, tracked, ss[i])
  {
    if i == 0 {
      InitInv(w, ss[0], tracked);
    } else {
      RunKeepsInv(w, ss, ls, tracked, i - 1);
      assert LeasesHeld(tracked, ss[i - 1]) && InTenure(w, ss[i - 1], ls[i - 1]);
      NextKeepsInv(w, ss[i - 1], ss[i], ls[i - 1], tracked);
    }
  }

  // ---------------------------------------------------------------- 1. nothing in force is missing

  /** In every state of every run, with collectors and publishers interleaved at will, the manifest of
      every generation that is not retired is valid, and every object it references is in the store and
      passes its size and checksum test. */
  lemma NothingInForceIsMissing(w: World, ss: seq<State>, ls: seq<Label>, i: nat, id: Identity)
    requires WorldOk(w) && IsRun(w, ss, ls) && Disciplined(w, {}, ss, ls) && i < |ss|
    requires ManifestKey(id) in ss[i].sh.store && !IsRetired(ss[i].sh.h.control, id)
    ensures ss[i].sh.store[ManifestKey(id)].blob.ManifestBlob?
    ensures var m := ss[i].sh.store[ManifestKey(id)].blob.manifest;
            && ValidManifest(id, m)
            && RefsHold(w, ss[i].sh.store, m)
            && (forall k :: References(m, k) ==> k in ss[i].sh.store)
  {
    RunKeepsInv(w, ss, ls, {}, i);
    var store := ss[i].sh.store;
    var m := store[ManifestKey(id)].blob.manifest;
    forall k | References(m, k) ensures k in store {
      if !(m.base.Snapshot? && m.base.snapshot.key == k) {
        var j :| 0 <= j < |m.segments| && m.segments[j].key == k;
        assert Intact(w, store, m.segments[j].key, m.segments[j].size, m.segments[j].sha);
      }
    }
  }

  // ---------------------------------------------------------------- 2. a leased reader finds everything

  /** A restore whose reader lease stays live never meets a missing or damaged object: from the moment it
      has loaded its manifest until it finishes, everything the manifest references is there. */
  lemma LeasedReaderFindsEverything(w: World, ss: seq<State>, ls: seq<Label>, i: nat, pid: nat)
    requires WorldOk(w) && IsRun(w, ss, ls) && Disciplined(w, {pid}, ss, ls) && i < |ss|
    requires pid in ss[i].procs && ss[i].procs[pid].ReadProc? && ReadHolding(ss[i].procs[pid].read.pc)
    ensures RefsHold(w, ss[i].sh.store, ss[i].procs[pid].read.pc.manifest)
    ensures !IsRetired(ss[i].sh.h.control, ss[i].procs[pid].read.id)
  {
    RunKeepsInv(w, ss, ls, {pid}, i);
    assert ProcInv(w, ss[i].sh, ss[i].procs[pid], true);
  }

  // ---------------------------------------------------------------- 3. collection is resumable and unique

  /** Once a collection has a report, the report names the plan's candidates in order, and no candidate is
      in the store at its planned version. */
  lemma ReportedCandidatesAreGone(w: World, ss: seq<State>, ls: seq<Label>, i: nat, planHash: Hash, n: nat)
    requires WorldOk(w) && IsRun(w, ss, ls) && Disciplined(w, {}, ss, ls) && i < |ss|
    requires planHash in ss[i].sh.reports
    requires planHash in ss[i].sh.plans && n < |ss[i].sh.plans[planHash].candidates|
    ensures var report := ss[i].sh.reports[planHash];
            var c := ss[i].sh.plans[planHash].candidates[n];
            && report.planHash == planHash
            && |report.results| == |ss[i].sh.plans[planHash].candidates|
            && report.results[n].key == c.key && report.results[n].version == c.version
            && GoneAt(ss[i].sh.store, c.key, c.version)
  {
    RunKeepsInv(w, ss, ls, {}, i);
    var sh := ss[i].sh;
    assert ResultsMatch(sh, planHash, sh.reports[planHash].results);
    assert (planHash, sh.plans[planHash].candidates[n].key) in sh.evidence;
  }

  lemma ExecKeepsBooks(w: World, sh: Shared, sh': Shared, p: Exec, p': Exec, a: ExecAction)
    requires ExecStep(w, sh, sh', p, p', a)
    ensures BooksKept(sh, sh')
  {
  }

  lemma CopyKeepsBooks(w: World, sh: Shared, sh': Shared, p: Copier, p': Copier, a: CopyAction)
    requires CopyStep(w, sh, sh', p, p', a)
    ensures BooksKept(sh, sh')
  {
  }

  lemma PubKeepsBooks(w: World, sh: Shared, sh': Shared, p: Pub, p': Pub, a: PubAction)
    requires PubStep(w, sh, sh', p, p', a)
    ensures BooksKept(sh, sh')
  {
  }

  lemma SnapKeepsBooks(w: World, sh: Shared, sh': Shared, p: Snap, p': Snap, a: SnapAction)
    requires SnapStep(w, sh, sh', p, p', a)
    ensures BooksKept(sh, sh')
  {
  }

  lemma ReadKeepsBooks(w: World, sh: Shared, sh': Shared, p: Read, p': Read, a: ReadAction)
    requires ReadStep(w, sh, sh', p, p', a)
    ensures BooksKept(sh, sh')
  {
  }

  lemma ActKeepsBooks(w: World, sh: Shared, sh': Shared, p: Proc, p': Proc, a: Action)
    requires ActorStep(w, sh, sh', p, p', a)
    ensures BooksKept(sh, sh')
  {
    match a
    case ByPub(x) => PubKeepsBooks(w, sh, sh', p.pub, p'.pub, x);
    case BySnap(x) => SnapKeepsBooks(w, sh, sh', p.snap, p'.snap, x);
    case ByRead(x) => ReadKeepsBooks(w, sh, sh', p.read, p'.read, x);
    case ByCopy(x) => CopyKeepsBooks(w, sh, sh', p.copier, p'.copier, x);
    case ByPlan(x) =>
    case ByExec(x) => ExecKeepsBooks(w, sh, sh', p.exec, p'.exec, x);
  }

  lemma NextKeepsBooks(w: World, s: State, s': State, l: Label)
    requires Next(w, s, s', l)
    ensures BooksKept(s.sh, s'.sh)
  {
    if l.Act? { ActKeepsBooks(w, s.sh, s'.sh, s.procs[l.pid], s'.procs[l.pid], l.action); }
  }

  lemma {:induction false} BooksKeptChain(ss: seq<State>, i: nat, j: nat)
    requires i <= j < |ss| && forall k :: 0 <= k < |ss| - 1 ==> BooksKept(ss[k].sh, ss[k + 1].sh)
    ensures BooksKept(ss[i].sh, ss[j].sh)
    decreases j
  {
    if i < j { BooksKeptChain(ss, i, j - 1); }
  }

  /** Plans, evidence and reports are written once and never change. */
  lemma BooksNeverChange(w: World, ss: seq<State>, ls: seq<Label>, i: nat, j: nat)
    requires IsRun(w, ss, ls) && i <= j < |ss|
    ensures BooksKept(ss[i].sh, ss[j].sh)
  {
    forall k | 0 <= k < |ss| - 1 ensures BooksKept(ss[k].sh, ss[k + 1].sh) {
      NextKeepsBooks(w, ss[k], ss[k + 1], ls[k]);
    }
    BooksKeptChain(ss, i, j);
  }

  /** Executions of one plan that end, in whatever order, however often crashed and resumed, end with one
      and the same report. */
  lemma OneReportPerPlan(w: World, ss: seq<State>, ls: seq<Label>, i: nat, a: nat, j: nat, b: nat)
    requires WorldOk(w) && IsRun(w, ss, ls) && Disciplined(w, {}, ss, ls) && i <= j < |ss|
    requires a in ss[i].procs && ss[i].procs[a].ExecProc? && ss[i].procs[a].exec.pc.ExecDone?
    requires b in ss[j].procs && ss[j].procs[b].ExecProc? && ss[j].procs[b].exec.pc.ExecDone?
    requires ss[i].procs[a].exec.planHash == ss[j].procs[b].exec.planHash
    ensures ss[i].procs[a].exec.pc.report == ss[j].procs[b].exec.pc.report
  {
    RunKeepsInv(w, ss, ls, {}, i);
    RunKeepsInv(w, ss, ls, {}, j);
    assert ProcInv(w, ss[i].sh, ss[i].procs[a], false);
    assert ProcInv(w, ss[j].sh, ss[j].procs[b], false);
    BooksNeverChange(w, ss, ls, i, j);
  }

  // ---------------------------------------------------------------- 4. retirement is respected

  function ContentOf(store: Store, id: Identity): Option<Blob> {
    if ManifestKey(id) in store then Some(store[ManifestKey(id)].blob) else None
  }

  /** The generation's manifest appears, changes or disappears. */
  predicate ChangesContent(s: State, s': State, id: Identity) {
    ContentOf(s.sh.store, id) != ContentOf(s'.sh.store, id)
  }

  /** The generation whose manifest a process may write, and whether it was retired when the call began. */
  predicate WritesTo(p: Proc, id: Identity) {
    match p
    case PubProc(x) => x.id == id
    case SnapProc(x) => x.id == id
    case CopyProc(x) => x.target == id
    case _ => false
  }

  predicate BegunRetired(p: Proc) {
    match p
    case PubProc(x) => x.born
    case SnapProc(x) => x.born
    case ReadProc(x) => x.born
    case CopyProc(x) => x.born
    case _ => false
  }

  lemma PubWritesOwn(w: World, sh: Shared, sh': Shared, p: Pub, p': Pub, a: PubAction, id: Identity)
    requires PubStep(w, sh, sh', p, p', a) && ContentOf(sh.store, id) != ContentOf(sh'.store, id)
    ensures p.id == id && !p.pc.PubCalled? && !p.pc.PubQuiet?
  {
  }

  lemma SnapWritesOwn(w: World, sh: Shared, sh': Shared, p: Snap, p': Snap, a: SnapAction, id: Identity)
    requires SnapStep(w, sh, sh', p, p', a) && SnapInv(w, sh, p) && ContentOf(sh.store, id) != ContentOf(sh'.store, id)
    ensures p.id == id && !p.pc.SnapCalled? && !p.pc.SnapQuiet?
  {
  }

  lemma CopyWritesOwn(w: World, sh: Shared, sh': Shared, p: Copier, p': Copier, a: CopyAction, id: Identity)
    requires CopyStep(w, sh, sh', p, p', a) && ContentOf(sh.store, id) != ContentOf(sh'.store, id)
    ensures p.target == id && !CopyEarly(p.pc)
  {
    if a.CopyPut? { ParcelKey(p.target, p.loaded.value.manifest, p.pc.n); }
  }

  lemma OthersWriteNone(w: World, sh: Shared, sh': Shared, p: Proc, p': Proc, a: Action, id: Identity)
    requires ActorStep(w, sh, sh', p, p', a) && (a.ByRead? || a.ByPlan? || a.ByExec?)
    ensures ContentOf(sh.store, id) == ContentOf(sh'.store, id)
  {
  }

  lemma ActorBeganInTime(w: World, sh: Shared, sh': Shared, p: Proc, p': Proc, a: Action, id: Identity)
    requires ActorStep(w, sh, sh', p, p', a) && ProcInv(w, sh, p, false)
    requires ContentOf(sh.store, id) != ContentOf(sh'.store, id)
    ensures WritesTo(p, id) && !BegunRetired(p)
  {
    if a.ByPub? {
      PubWritesOwn(w, sh, sh', p.pub, p'.pub, a.pub, id);
    } else if a.BySnap? {
      SnapWritesOwn(w, sh, sh', p.snap, p'.snap, a.snap, id);
    } else if a.ByCopy? {
      CopyWritesOwn(w, sh, sh', p.copier, p'.copier, a.copy, id);
    } else {
      OthersWriteNone(w, sh, sh', p, p', a, id);
    }
  }

  lemma WriterBeganInTime(w: World, s: State, s': State, l: Label, id: Identity)
    requires Next(w, s, s', l) && ChangesContent(s, s', id)
    requires l.Act? ==> ProcInv(w, s.sh, s.procs[l.pid], false)
    ensures l.Act? && WritesTo(s.procs[l.pid], id) && !BegunRetired(s.procs[l.pid])
  {
    ActorBeganInTime(w, s.sh, s'.sh, s.procs[l.pid], s'.procs[l.pid], l.action, id);
  }

  /** A manifest appears, changes or disappears only by a call, to publish in that generation or to copy to
      it, that began before the generation was retired. */
  lemma RetiredContentIsFinal(w: World, ss: seq<State>, ls: seq<Label>, i: nat, id: Identity)
    requires WorldOk(w) && IsRun(w, ss, ls) && Disciplined(w, {}, ss, ls) && i < |ls|
    requires ChangesContent(ss[i], ss[i + 1], id)
    ensures ls[i].Act? && ls[i].pid in ss[i].procs
    ensures WritesTo(ss[i].procs[ls[i].pid], id) && !BegunRetired(ss[i].procs[ls[i].pid])
  {
    ProcAt(w, ss, ls, i);
    WriterBeganInTime(w, ss[i], ss[i + 1], ls[i], id);
  }

  /** The acting process of a step satisfies its invariant. */
  lemma ProcAt(w: World, ss: seq<State>, ls: seq<Label>, i: nat)
    requires WorldOk(w) && IsRun(w, ss, ls) && Disciplined(w, {}, ss, ls) && i < |ls|
    ensures Next(w, ss[i], ss[i + 1], ls[i]) && StoreInv(ss[i].sh)
    ensures ls[i].Act? ==> ProcInv(w, ss[i].sh, ss[i].procs[ls[i].pid], false)
  {
    RunKeepsInv(w, ss, ls, {}, i);
    assert Next(w, ss[i], ss[i + 1], ls[i]);
  }

  /** A restore that began after its generation was retired never loads a manifest and returns nothing. */
  lemma RetiredIsNotRestored(w: World, ss: seq<State>, ls: seq<Label>, i: nat, pid: nat)
    requires WorldOk(w) && IsRun(w, ss, ls) && Disciplined(w, {}, ss, ls) && i < |ss|
    requires pid in ss[i].procs && ss[i].procs[pid].ReadProc? && BegunRetired(ss[i].procs[pid])
    ensures !ReadHolding(ss[i].procs[pid].read.pc) && !ss[i].procs[pid].read.pc.ReadDone?
  {
    RunKeepsInv(w, ss, ls, {}, i);
    assert ProcInv(w, ss[i].sh, ss[i].procs[pid], false);
  }

  // ---------------------------------------------------------------- 5. manifests extend until withdrawn

  /** If the generation has a manifest, it has one afterwards that extends it. */
  ghost predicate ManifestKept(sh: Shared, sh': Shared, id: Identity) {
    ManifestKey(id) in sh.store ==>
      && sh.store[ManifestKey(id)].blob.ManifestBlob?
      && ManifestKey(id) in sh'.store && sh'.store[ManifestKey(id)].blob.ManifestBlob?
      && Extends(sh.store[ManifestKey(id)].blob.manifest, sh'.store[ManifestKey(id)].blob.manifest)
  }

  /** The step deletes the generation's manifest: a copier withdraws the version it published. */
  predicate IsWithdrawal(s: State, l: Label, id: Identity) {
    && l.Act? && l.action == ByCopy(CopyWithdraw) && l.pid in s.procs && s.procs[l.pid].CopyProc?
    && s.procs[l.pid].copier.target == id && Withdraws(s.sh, s.procs[l.pid].copier)
  }

  lemma PubSwapExtends(w: World, sh: Shared, sh': Shared, p: Pub, p': Pub, id: Identity)
    requires StoreInv(sh) && PubInv(w, sh, p) && PubStep(w, sh, sh', p, p', PubSwap)
    ensures ManifestKept(sh, sh', id)
  {
    if p.id == id {
      var es, next := p.entries[p.pc.k..], NextManifest(w, p, p.pc.k);
      assert HasManifest(sh.store, id, p.loaded.value.manifest);
      assert RecordOk(id, next, |next.segments| - 1);
      AppendExtends(w, id, p.loaded.value.manifest, es);
    }
  }

  lemma PubStepExtends(w: World, sh: Shared, sh': Shared, p: Pub, p': Pub, a: PubAction, id: Identity)
    requires StoreInv(sh) && PubInv(w, sh, p) && PubStep(w, sh, sh', p, p', a)
    ensures ManifestKept(sh, sh', id)
  {
    if a.PubSwap? {
      PubSwapExtends(w, sh, sh', p, p', id);
    } else if !a.PubMigrateSwap? && !a.PubInit? {
      PubRestWritesNone(w, sh, sh', p, p', a, id);
      SameContentExtends(sh, sh', id);
    }
  }

  lemma PubRestWritesNone(w: World, sh: Shared, sh': Shared, p: Pub, p': Pub, a: PubAction, id: Identity)
    requires PubStep(w, sh, sh', p, p', a) && !a.PubSwap? && !a.PubMigrateSwap? && !a.PubInit?
    ensures ContentOf(sh.store, id) == ContentOf(sh'.store, id)
  {
  }

  lemma SnapStepExtends(w: World, sh: Shared, sh': Shared, p: Snap, p': Snap, a: SnapAction, id: Identity)
    requires StoreInv(sh) && SnapInv(w, sh, p) && SnapStep(w, sh, sh', p, p', a)
    ensures ManifestKept(sh, sh', id)
  {
    if a.SnapSwap? {
      SnapSwapExtends(w, sh, sh', p, p', id);
    } else {
      SnapRestWritesNone(w, sh, sh', p, p', a, id);
      SameContentExtends(sh, sh', id);
    }
  }

  lemma SnapSwapExtends(w: World, sh: Shared, sh': Shared, p: Snap, p': Snap, id: Identity)
    requires StoreInv(sh) && SnapInv(w, sh, p) && SnapStep(w, sh, sh', p, p', SnapSwap)
    ensures ManifestKept(sh, sh', id)
  {
    if p.id == id {
      assert HasManifest(sh.store, id, p.loaded.value.manifest);
      CompactExtends(id, p.loaded.value.manifest, p.base);
    }
  }

  lemma SnapRestWritesNone(w: World, sh: Shared, sh': Shared, p: Snap, p': Snap, a: SnapAction, id: Identity)
    requires SnapInv(w, sh, p) && SnapStep(w, sh, sh', p, p', a) && !a.SnapSwap?
    ensures ContentOf(sh.store, id) == ContentOf(sh'.store, id)
  {
  }

  lemma SameContentExtends(sh: Shared, sh': Shared, id: Identity)
    requires StoreInv(sh) && ContentOf(sh.store, id) == ContentOf(sh'.store, id)
    ensures ManifestKept(sh, sh', id)
  {
  }

  lemma CopyStepExtends(w: World, sh: Shared, sh': Shared, p: Copier, p': Copier, a: CopyAction, id: Identity)
    requires StoreInv(sh) && CopyStep(w, sh, sh', p, p', a) && ManifestKey(id) in sh.store
    ensures ManifestKept(sh, sh', id) <==> !(a.CopyWithdraw? && p.target == id && Withdraws(sh, p))
  {
    if a.CopyPut? { ParcelKey(p.target, p.loaded.value.manifest, p.pc.n); }
    if !(a.CopyWithdraw? && p.target == id && Withdraws(sh, p)) { SameContentExtends(sh, sh', id); }
  }

  lemma ActExtendsExactly(w: World, sh: Shared, sh': Shared, p: Proc, p': Proc, a: Action, id: Identity)
    requires StoreInv(sh) && ProcInv(w, sh, p, false) && ActorStep(w, sh, sh', p, p', a) && ManifestKey(id) in sh.store
    ensures ManifestKept(sh, sh', id)
            <==> !(a == ByCopy(CopyWithdraw) && p.copier.target == id && Withdraws(sh, p.copier))
  {
    if a.ByPub? {
      PubStepExtends(w, sh, sh', p.pub, p'.pub, a.pub, id);
    } else if a.BySnap? {
      SnapStepExtends(w, sh, sh', p.snap, p'.snap, a.snap, id);
    } else if a.ByCopy? {
      CopyStepExtends(w, sh, sh', p.copier, p'.copier, a.copy, id);
    } else {
      OthersWriteNone(w, sh, sh', p, p', a, id);
      SameContentExtends(sh, sh', id);
    }
  }

  /** Exactly one kind of step loses a manifest. */
  lemma NextExtendsExactly(w: World, s: State, s': State, l: Label, id: Identity)
    requires StoreInv(s.sh) && Next(w, s, s', l) && ManifestKey(id) in s.sh.store
    requires l.Act? ==> ProcInv(w, s.sh, s.procs[l.pid], false)
    ensures ManifestKept(s.sh, s'.sh, id) <==> !IsWithdrawal(s, l, id)
  {
    if l.Act? {
      ActExtendsExactly(w, s.sh, s'.sh, s.procs[l.pid], s'.procs[l.pid], l.action, id);
    } else {
      SameContentExtends(s.sh, s'.sh, id);
    }
  }

  lemma ManifestKeptTransitive(a: Shared, b: Shared, c: Shared, id: Identity)
    requires ManifestKept(a, b, id) && ManifestKept(b, c, id)
    ensures ManifestKept(a, c, id)
  {
    if ManifestKey(id) in a.store {
      ExtendsTransitive(a.store[ManifestKey(id)].blob.manifest, b.store[ManifestKey(id)].blob.manifest,
                        c.store[ManifestKey(id)].blob.manifest);
    }
  }

  lemma {:induction false} ManifestKeptChain(ss: seq<State>, id: Identity, i: nat, j: nat)
    requires i < j < |ss| && forall k :: i <= k < j ==> ManifestKept(ss[k].sh, ss[k + 1].sh, id)
    ensures ManifestKept(ss[i].sh, ss[j].sh, id)
    decreases j
  {
    if i < j - 1 {
      ManifestKeptChain(ss, id, i, j - 1);
      ManifestKeptTransitive(ss[i].sh, ss[j - 1].sh, ss[j].sh, id);
    }
  }

  /** No step from the i-th state to the j-th withdraws the generation's manifest. */
  ghost predicate NotWithdrawn(ss: seq<State>, ls: seq<Label>, i: nat, j: nat, id: Identity)
    requires |ss| == |ls| + 1 && j <= |ls|
  {
    forall k :: i <= k < j ==> !IsWithdrawal(ss[k], ls[k], id)
  }

  lemma KeptWhileNotWithdrawn(w: World, ss: seq<State>, ls: seq<Label>, i: nat, k: nat, id: Identity)
    requires WorldOk(w) && IsRun(w, ss, ls) && Disciplined(w, {}, ss, ls) && i <= k < |ls|
    requires !IsWithdrawal(ss[k], ls[k], id)
    ensures ManifestKept(ss[k].sh, ss[k + 1].sh, id)
  {
    ProcAt(w, ss, ls, k);
    if ManifestKey(id) in ss[k].sh.store { NextExtendsExactly(w, ss[k], ss[k + 1], ls[k], id); }
  }

  /** Across any number of concurrent writers, and until a copier withdraws it, a generation's manifest only
      ever extends: it stays valid, its tip never falls, and an index covered before and after is covered by
      the same object. */
  lemma ManifestsOnlyExtend(w: World, ss: seq<State>, ls: seq<Label>, i: nat, j: nat, id: Identity)
    requires WorldOk(w) && IsRun(w, ss, ls) && Disciplined(w, {}, ss, ls) && i < j < |ss|
    requires ManifestKey(id) in ss[i].sh.store && NotWithdrawn(ss, ls, i, j, id)
    ensures ManifestKept(ss[i].sh, ss[j].sh, id)
    ensures ManifestKey(id) in ss[j].sh.store && ss[j].sh.store[ManifestKey(id)].blob.ManifestBlob?
    ensures ValidManifest(id, ss[j].sh.store[ManifestKey(id)].blob.manifest)
  {
    forall k | i <= k < j ensures ManifestKept(ss[k].sh, ss[k + 1].sh, id) {
      KeptWhileNotWithdrawn(w, ss, ls, i, k, id);
    }
    ManifestKeptChain(ss, id, i, j);
    RunKeepsInv(w, ss, ls, {}, j);
  }

  lemma WithdrawalLoses(w: World, ss: seq<State>, ls: seq<Label>, k: nat, id: Identity)
    requires IsRun(w, ss, ls) && k < |ls| && IsWithdrawal(ss[k], ls[k], id)
    ensures ManifestKey(id) !in ss[k + 1].sh.store
  {
    assert Next(w, ss[k], ss[k + 1], ls[k]);
  }

  /** The condition is exact: the manifest of the i-th state is there, extended, in every later state up to the
      j-th if and only if no step in between withdraws it. */
  lemma ExtendsExactlyUntilWithdrawn(w: World, ss: seq<State>, ls: seq<Label>, i: nat, j: nat, id: Identity)
    requires WorldOk(w) && IsRun(w, ss, ls) && Disciplined(w, {}, ss, ls) && i < j < |ss|
    requires ManifestKey(id) in ss[i].sh.store
    ensures (forall k :: i < k <= j ==> ManifestKept(ss[i].sh, ss[k].sh, id)) <==> NotWithdrawn(ss, ls, i, j, id)
  {
    if NotWithdrawn(ss, ls, i, j, id) {
      forall k | i < k <= j ensures ManifestKept(ss[i].sh, ss[k].sh, id) {
        ManifestsOnlyExtend(w, ss, ls, i, k, id);
      }
    } else {
      var k :| i <= k < j && IsWithdrawal(ss[k], ls[k], id);
      WithdrawalLoses(w, ss, ls, k, id);
      assert !ManifestKept(ss[i].sh, ss[k + 1].sh, id);
    }
  }

  // ---------------------------------------------------------------- 6. when a withdrawal can still come

  /** A copier that may yet withdraw the generation's manifest: it has seen no manifest and will publish its
      own or take one with the same content for it, or it has published the very version that is stored. */
  predicate Threatens(sh: Shared, p: Proc, id: Identity) {
    && p.CopyProc? && p.copier.target == id
    && (|| p.copier.pc.CopyReady?
        || ((p.copier.pc.CopyPublished? || p.copier.pc.CopyWithdrawing?)
            && ManifestKey(id) in sh.store && sh.store[ManifestKey(id)].version == p.copier.pc.version))
  }

  ghost predicate Settled(s: State, id: Identity) {
    ManifestKey(id) in s.sh.store && forall q :: q in s.procs ==> !Threatens(s.sh, s.procs[q], id)
  }

  /** The stored manifest's version after a step: the same, or new. */
  predicate VersionMoves(sh: Shared, sh': Shared, id: Identity) {
    ManifestKey(id) in sh.store ==>
      && ManifestKey(id) in sh'.store
      && (|| sh'.store[ManifestKey(id)].version == sh.store[ManifestKey(id)].version
          || sh'.store[ManifestKey(id)].version == sh.version)
  }

  lemma CopyMovesVersion(w: World, sh: Shared, sh': Shared, p: Copier, p': Copier, a: CopyAction, id: Identity)
    requires CopyStep(w, sh, sh', p, p', a) && !(a.CopyWithdraw? && p.target == id && Withdraws(sh, p))
    ensures VersionMoves(sh, sh', id)
  {
    if a.CopyPut? { ParcelKey(p.target, p.loaded.value.manifest, p.pc.n); }
  }

  lemma PubMovesVersion(w: World, sh: Shared, sh': Shared, p: Pub, p': Pub, a: PubAction, id: Identity)
    requires PubStep(w, sh, sh', p, p', a)
    ensures VersionMoves(sh, sh', id)
  {
  }

  lemma SnapMovesVersion(w: World, sh: Shared, sh': Shared, p: Snap, p': Snap, a: SnapAction, id: Identity)
    requires SnapStep(w, sh, sh', p, p', a)
    ensures VersionMoves(sh, sh', id)
  {
  }

  lemma ExecMovesVersion(w: World, sh: Shared, sh': Shared, p: Exec, p': Exec, a: ExecAction, id: Identity)
    requires ExecStep(w, sh, sh', p, p', a)
    ensures VersionMoves(sh, sh', id)
  {
  }

  lemma ActMovesVersion(w: World, sh: Shared, sh': Shared, p: Proc, p': Proc, a: Action, id: Identity)
    requires ActorStep(w, sh, sh', p, p', a) && !a.ByCopy?
    ensures VersionMoves(sh, sh', id)
  {
    match a
    case ByPub(x) => PubMovesVersion(w, sh, sh', p.pub, p'.pub, x, id);
    case BySnap(x) => SnapMovesVersion(w, sh, sh', p.snap, p'.snap, x, id);
    case ByExec(x) => ExecMovesVersion(w, sh, sh', p.exec, p'.exec, x, id);
    case _ =>
  }

  lemma NextMovesVersion(w: World, s: State, s': State, l: Label, id: Identity)
    requires Next(w, s, s', l) && !IsWithdrawal(s, l, id)
    ensures VersionMoves(s.sh, s'.sh, id)
  {
    if l.Act? {
      var p, p' := s.procs[l.pid], s'.procs[l.pid];
      if l.action.ByCopy? {
        CopyMovesVersion(w, s.sh, s'.sh, p.copier, p'.copier, l.action.copy, id);
      } else {
        ActMovesVersion(w, s.sh, s'.sh, p, p', l.action, id);
      }
    }
  }

  /** Only three steps of a copier bring it nearer to a withdrawal. */
  predicate Approaches(a: CopyAction) {
    a.CopyLook? || a.CopyPublish? || a.CopyRecheck?
  }

  lemma OtherStepsHarmless(w: World, sh: Shared, sh': Shared, p: Copier, p': Copier, a: CopyAction, id: Identity)
    requires CopyStep(w, sh, sh', p, p', a) && !Approaches(a)
    ensures !p'.pc.CopyReady? && !p'.pc.CopyPublished? && !p'.pc.CopyWithdrawing?
  {
  }

  /** A copier's own step, with a manifest in place, does not make it a threat. */
  lemma CopierStaysHarmless(w: World, sh: Shared, sh': Shared, p: Copier, p': Copier, a: CopyAction, id: Identity)
    requires CopyStep(w, sh, sh', p, p', a) && ManifestKey(id) in sh.store && !Threatens(sh, CopyProc(p), id)
    ensures !Threatens(sh', CopyProc(p'), id)
  {
    if !Approaches(a) { OtherStepsHarmless(w, sh, sh', p, p', a, id); }
  }

  /** Nor does the step of another process. */
  lemma BystanderStaysHarmless(w: World, sh: Shared, sh': Shared, p: Copier, id: Identity)
    requires CopyInv(w, sh, p) && ManifestKey(id) in sh.store
    requires VersionMoves(sh, sh', id) && !Threatens(sh, CopyProc(p), id)
    ensures !Threatens(sh', CopyProc(p), id)
  {
  }

  lemma StepStaysSettled(w: World, s: State, s': State, l: Label, id: Identity, q: nat)
    requires Settled(s, id) && Next(w, s, s', l) && VersionMoves(s.sh, s'.sh, id) && q in s'.procs
    requires q in s.procs && s.procs[q].CopyProc? ==> CopyInv(w, s.sh, s.procs[q].copier)
    ensures !Threatens(s'.sh, s'.procs[q], id)
  {
    if s'.procs[q].CopyProc? {
      assert q in s.procs ==> !Threatens(s.sh, s.procs[q], id);
      if l.Act? && l.pid == q {
        CopierStaysHarmless(w, s.sh, s'.sh, s.procs[q].copier, s'.procs[q].copier, l.action.copy, id);
      } else if !(l.Begin? && l.pid == q) {
        BystanderStaysHarmless(w, s.sh, s'.sh, s.procs[q].copier, id);
      }
    }
  }

  lemma SettledStep(w: World, s: State, s': State, l: Label, id: Identity)
    requires Settled(s, id) && Next(w, s, s', l)
    requires forall q :: q in s.procs ==> ProcInv(w, s.sh, s.procs[q], false)
    ensures Settled(s', id) && !IsWithdrawal(s, l, id)
  {
    assert l.Act? ==> !Threatens(s.sh, s.procs[l.pid], id);
    NextMovesVersion(w, s, s', l, id);
    forall q | q in s'.procs ensures !Threatens(s'.sh, s'.procs[q], id) {
      assert q in s.procs ==> ProcInv(w, s.sh, s.procs[q], false);
      StepStaysSettled(w, s, s', l, id, q);
    }
  }

  lemma SettledInRun(w: World, ss: seq<State>, ls: seq<Label>, i: nat, id: Identity)
    requires WorldOk(w) && IsRun(w, ss, ls) && Disciplined(w, {}, ss, ls) && i < |ls| && Settled(ss[i], id)
    ensures Settled(ss[i + 1], id) && !IsWithdrawal(ss[i], ls[i], id)
  {
    RunKeepsInv(w, ss, ls, {}, i);
    SettledStep(w, ss[i], ss[i + 1], ls[i], id);
  }

  ghost predicate StaysSettled(ss: seq<State>, ls: seq<Label>, k: nat, id: Identity)
    requires |ss| == |ls| + 1 && k < |ls|
  {
    Settled(ss[k], id) ==> Settled(ss[k + 1], id) && !IsWithdrawal(ss[k], ls[k], id)
  }

  lemma {:induction false} SettledChain(ss: seq<State>, ls: seq<Label>, i: nat, j: nat, id: Identity)
    requires |ss| == |ls| + 1 && i <= j < |ss| && Settled(ss[i], id)
    requires forall k :: 0 <= k < |ls| ==> StaysSettled(ss, ls, k, id)
    ensures Settled(ss[j], id) && NotWithdrawn(ss, ls, i, j, id)
    decreases j
  {
    if i < j {
      SettledChain(ss, ls, i, j - 1, id);
      assert StaysSettled(ss, ls, j - 1, id);
    }
  }

  /** A settled manifest is never withdrawn: no copier can come to threaten it later. */
  lemma SettledForGood(w: World, ss: seq<State>, ls: seq<Label>, i: nat, j: nat, id: Identity)
    requires WorldOk(w) && IsRun(w, ss, ls) && Disciplined(w, {}, ss, ls) && i <= j < |ss| && Settled(ss[i], id)
    ensures Settled(ss[j], id) && NotWithdrawn(ss, ls, i, j, id)
  {
    forall k | 0 <= k < |ls| ensures StaysSettled(ss, ls, k, id) {
      if Settled(ss[k], id) { SettledInRun(w, ss, ls, k, id); }
    }
    SettledChain(ss, ls, i, j, id);
  }

  // ---------------------------------------------------------------- 7. and when it does come

  /** A threat carried out: a copier that is withdrawing the stored version can do so at once. */
  lemma WithdrawingCopierStrikes(w: World, s: State, pid: nat, id: Identity) returns (s': State)
    requires pid in s.procs && s.procs[pid].CopyProc? && s.procs[pid].copier.target == id
    requires Withdraws(s.sh, s.procs[pid].copier)
    ensures Next(w, s, s', Act(pid, ByCopy(CopyWithdraw))) && IsWithdrawal(s, Act(pid, ByCopy(CopyWithdraw)), id)
    ensures ManifestKey(id) !in s'.sh.store
  {
    var p := s.procs[pid].copier;
    s' := State(Remove(s.sh, ManifestKey(id)), s.procs[pid := CopyProc(p.(pc := CopyQuiet))]);
  }

  /** A copier that has published the stored version, stepping alone, goes on to withdraw it if and only if its
      source is no longer as it loaded it. */
  lemma PublishedCopierStrikesExactly(w: World, s: State, pid: nat, id: Identity) returns (s': State)
    requires pid in s.procs && s.procs[pid].CopyProc? && s.procs[pid].copier.target == id
    requires s.procs[pid].copier.pc.CopyPublished? && s.procs[pid].copier.loaded.Some?
    requires ManifestKey(id) in s.sh.store && s.sh.store[ManifestKey(id)].version == s.procs[pid].copier.pc.version
    ensures Next(w, s, s', Act(pid, ByCopy(CopyRecheck))) && s'.sh == s.sh
    ensures forall t :: Next(w, s, t, Act(pid, ByCopy(CopyRecheck))) ==> t == s'
    ensures pid in s'.procs && s'.procs[pid].CopyProc?
    ensures var p, p' := s.procs[pid].copier, s'.procs[pid].copier;
            && (Withdraws(s'.sh, p') <==> !StoredAs(s.sh.store, p.source, p.loaded.value))
            && (!Threatens(s'.sh, CopyProc(p'), id) <==> StoredAs(s.sh.store, p.source, p.loaded.value))
  {
    var p := s.procs[pid].copier;
    var p' := p.(pc := if StoredAs(s.sh.store, p.source, p.loaded.value) then CopyConfirmed(p.pc.result)
                       else CopyWithdrawing(p.pc.result, p.pc.version));
    s' := State(s.sh, s.procs[pid := CopyProc(p')]);
  }
}
