/**
 What a copy is worth.  A restore reads its objects one by one, at different moments; because every object is
 verified by its digest, what it returns is what the manifest restores to wherever its objects are intact.
 A copy to the next recovery generation that returns Ok after its recheck therefore restores to exactly what
 the copier's own restore of the source returned.
 */
module ArchiveCopies {
  import opened Model
  import opened Checkpoint
  import opened Copying
  import opened Archive
  import opened ArchiveSafety
  import opened ArchiveProof
  import opened ArchiveTheorems

  ghost predicate ReadPcOk(w: World, id: Identity, pc: ReadPc) {
    match pc
    case ReadSegments(m, snapshot, es, n) => ReadsTo(w, id, m, n, snapshot, es)
    case ReadDone(m, result) => RestoresTo(w, id, m, result)
    case _ => true
  }

  /** The manifest a generation starts with is valid, of the current format, and restores to nothing. */
  lemma EmptyReads(w: World, id: Identity)
    ensures ValidManifest(id, EmptyManifest(id)) && EmptyManifest(id).format == CHECKPOINT_FORMAT
    ensures RestoresTo(w, id, EmptyManifest(id), Restored(None, [], EmptyManifest(id).tip))
  {
  }

  /** Every step of a restore keeps what it has read true of the manifest. */
  lemma ReadStepReads(w: World, sh: Shared, sh': Shared, p: Read, p': Read, a: ReadAction)
    requires CollisionFreeDigest(w) && ReadPcOk(w, p.id, p.pc) && ReadStep(w, sh, sh', p, p', a)
    ensures ReadPcOk(w, p'.id, p'.pc)
  {
    match a
    case ReadManifest => EmptyReads(w, p.id);
    case ReadBase =>
      if RestoreBase(w, sh.store, p.pc.manifest.base).Ok? { BaseReads(w, sh.store, p.id, p.pc.manifest); }
    case ReadSegment =>
      if p'.pc.ReadSegments? { SegmentReads(w, sh.store, p.id, p.pc.manifest, p.pc.n, p.pc.snapshot, p.pc.es); }
    case ReadFinish =>
      if p'.pc.ReadDone? { FinishReads(w, p.id, p.pc.manifest, p.pc.snapshot, p.pc.es); }
    case _ =>
  }

  // ---------------------------------------------------------------- the copier's own restore

  /** The manifest its restore has loaded. */
  predicate Rereads(p: Copier, m: Manifest) {
    p.reread.Some? ==> p.reread.value.manifest == m
  }

  predicate HasResult(pc: CopyPc) {
    pc.CopyObjects? || pc.CopyGot? || pc.CopyPlaced? || pc.CopyReady? || pc.CopyFound? || pc.CopyPublished?
    || pc.CopyWithdrawing? || pc.CopyConfirmed? || pc.CopyDone?
  }

  ghost predicate CopyReadInv(w: World, p: Copier) {
    && (p.pc.CopyRestoring? ==> ReadPcOk(w, p.source, p.pc.read))
    && (p.pc.CopyRestoring? && (ReadHolding(p.pc.read) || p.pc.read.ReadDone?) ==> Rereads(p, p.pc.read.manifest))
    && (HasResult(p.pc) && p.reread.Some? ==> RestoresTo(w, p.source, p.reread.value.manifest, p.pc.result))
  }

  ghost predicate ProcReadInv(w: World, p: Proc) {
    match p
    case ReadProc(x) => ReadPcOk(w, x.id, x.pc)
    case CopyProc(x) => CopyReadInv(w, x)
    case _ => true
  }

  lemma CopyRestoreReads(w: World, sh: Shared, sh': Shared, p: Copier, p': Copier, read: ReadAction)
    requires CollisionFreeDigest(w) && CopyReadInv(w, p) && SourceInv(sh, p)
             && CopyStep(w, sh, sh', p, p', CopyRestore(read))
    ensures CopyReadInv(w, p')
  {
    ReadStepReads(w, sh, sh', SourceReader(p, p.pc.read), SourceReader(p, p'.pc.read), read);
  }

  lemma CopyStepReads(w: World, sh: Shared, sh': Shared, p: Copier, p': Copier, a: CopyAction)
    requires CollisionFreeDigest(w) && CopyReadInv(w, p) && SourceInv(sh, p) && CopyStep(w, sh, sh', p, p', a)
    ensures CopyReadInv(w, p')
  {
    if a.CopyRestore? { CopyRestoreReads(w, sh, sh', p, p', a.read); }
  }

  lemma NextReads(w: World, s: State, s': State, l: Label, pid: nat)
    requires CollisionFreeDigest(w) && Next(w, s, s', l) && pid in s'.procs
    requires pid in s.procs ==> ProcReadInv(w, s.procs[pid]) && ProcInv(w, s.sh, s.procs[pid], false)
    ensures ProcReadInv(w, s'.procs[pid])
  {
    if l.Act? && l.pid == pid {
      var p, p' := s.procs[pid], s'.procs[pid];
      match l.action
      case ByRead(x) => ReadStepReads(w, s.sh, s'.sh, p.read, p'.read, x);
      case ByCopy(x) => CopyStepReads(w, s.sh, s'.sh, p.copier, p'.copier, x);
      case _ =>
    }
  }

  ghost predicate AllRead(w: World, s: State) {
    forall pid :: pid in s.procs ==> ProcReadInv(w, s.procs[pid])
  }

  lemma NextAllRead(w: World, s: State, s': State, l: Label)
    requires CollisionFreeDigest(w) && Next(w, s, s', l) && AllRead(w, s) && Inv(w, {}, s)
    ensures AllRead(w, s')
  {
    forall pid | pid in s'.procs ensures ProcReadInv(w, s'.procs[pid]) {
      assert pid in s.procs ==> ProcReadInv(w, s.procs[pid]) && ProcInv(w, s.sh, s.procs[pid], false);
      NextReads(w, s, s', l, pid);
    }
  }

  lemma {:induction false} RunReads(w: World, ss: seq<State>, ls: seq<Label>, i: nat)
    requires WorldOk(w) && IsRun(w, ss, ls) && Disciplined(w, {}, ss, ls) && i < |ss|
    ensures AllRead(w, ss[i])
  {
    if i > 0 {
      RunReads(w, ss, ls, i - 1);
      RunKeepsInv(w, ss, ls, {}, i - 1);
      NextAllRead(w, ss[i - 1], ss[i], ls[i - 1]);
    }
  }

  /** A restore that completes, its downloads spread over other processes' steps and its lease held or not,
      returns what its manifest restores to wherever the objects are intact. */
  lemma CompletedRestoreIsTheManifests(w: World, ss: seq<State>, ls: seq<Label>, i: nat, pid: nat)
    requires WorldOk(w) && IsRun(w, ss, ls) && Disciplined(w, {}, ss, ls) && i < |ss|
    requires pid in ss[i].procs && ss[i].procs[pid].ReadProc? && ss[i].procs[pid].read.pc.ReadDone?
    ensures var p := ss[i].procs[pid].read; RestoresTo(w, p.id, p.pc.manifest, p.pc.result)
  {
    RunReads(w, ss, ls, i);
    assert ProcReadInv(w, ss[i].procs[pid]);
  }

  // ---------------------------------------------------------------- the copy

  /** When a copier publishes, or finds its own manifest there, the target has the copy; and if the copier wrote
      it, with all its objects. */
  lemma PublishedCopyIsComplete(w: World, ss: seq<State>, ls: seq<Label>, i: nat, pid: nat)
    requires WorldOk(w) && IsRun(w, ss, ls) && Disciplined(w, {}, ss, ls) && i < |ls|
    requires ls[i] == Act(pid, ByCopy(CopyPublish))
    ensures pid in ss[i].procs && ss[i].procs[pid].CopyProc? && ss[i].procs[pid].copier.loaded.Some?
    ensures var p := ss[i].procs[pid].copier;
            && HasManifest(ss[i + 1].sh.store, p.target, Goods(p)) && ValidManifest(p.target, Goods(p))
            && RefsHold(w, ss[i + 1].sh.store, Goods(p))
  {
    ProcAt(w, ss, ls, i);
    var p, p' := ss[i].procs[pid].copier, ss[i + 1].procs[pid].copier;
    PublishHolds(w, ss[i].sh, ss[i + 1].sh, p, p');
  }

  lemma PublishHolds(w: World, sh: Shared, sh': Shared, p: Copier, p': Copier)
    requires CopyInv(w, sh, p) && CopyStep(w, sh, sh', p, p', CopyPublish)
    ensures HasManifest(sh'.store, p.target, Goods(p)) && RefsHold(w, sh'.store, Goods(p))
  {
    var m := p.loaded.value.manifest;
    ParcelsFrame(w, sh.store, sh'.store, p.target, m, |ParcelsOf(p)|);
    ParcelsAreRefs(w, sh'.store, p.target, m);
  }

  /** A copy that returned Ok is valid for its target and restores to whatever the source manifest it loaded
      restores to; and if it rechecked the source, that is exactly what its own restore of the source
      returned. */
  lemma FinishedCopyRestoresSource(w: World, ss: seq<State>, ls: seq<Label>, i: nat, pid: nat)
    requires WorldOk(w) && IsRun(w, ss, ls) && Disciplined(w, {}, ss, ls) && i < |ss|
    requires pid in ss[i].procs && ss[i].procs[pid].CopyProc? && ss[i].procs[pid].copier.pc.CopyDone?
    ensures ss[i].procs[pid].copier.loaded.Some?
    ensures var p := ss[i].procs[pid].copier;
            && (forall r :: RestoresTo(w, p.source, p.loaded.value.manifest, r) ==>
                  RestoresTo(w, p.target, Goods(p), r))
            && (p.pc.confirmed ==>
                  && RestoresTo(w, p.source, p.loaded.value.manifest, p.pc.result)
                  && RestoresTo(w, p.target, Goods(p), p.pc.result))
  {
    var p := ss[i].procs[pid].copier;
    RunReads(w, ss, ls, i);
    RunKeepsInv(w, ss, ls, {}, i);
    assert ProcReadInv(w, ss[i].procs[pid]) && ProcInv(w, ss[i].sh, ss[i].procs[pid], false);
    forall r | RestoresTo(w, p.source, p.loaded.value.manifest, r) ensures RestoresTo(w, p.target, Goods(p), r) {
      CopyRestoresAsSource(w, p.source, p.target, p.loaded.value.manifest, r);
    }
  }

  // ---------------------------------------------------------------- the copy in the store

  /** The copier has seen its manifest stored in the target. */
  predicate Placed(pc: CopyPc) {
    pc.CopyFound? || pc.CopyPublished? || pc.CopyWithdrawing? || pc.CopyConfirmed? || pc.CopyDone?
  }

  /** The process is still this call, past the moment at which it saw its manifest stored. */
  predicate StillCall(s: State, pid: nat, p: Copier) {
    && pid in s.procs && s.procs[pid].CopyProc?
    && var q := s.procs[pid].copier;
       q.source == p.source && q.target == p.target && q.loaded == p.loaded && Placed(q.pc)
  }

  predicate IsPlaced(s: State, pid: nat) {
    pid in s.procs && s.procs[pid].CopyProc? && Placed(s.procs[pid].copier.pc)
  }

  predicate HoldsGoods(sh: Shared, p: Copier) {
    p.loaded.Some? && HasManifest(sh.store, p.target, Goods(p))
  }

  /** A copier gets there only by seeing its manifest in the store. */
  lemma PlacedStep(w: World, sh: Shared, sh': Shared, p: Copier, p': Copier, a: CopyAction)
    requires CopyStep(w, sh, sh', p, p', a) && Placed(p'.pc)
    ensures p'.source == p.source && p'.target == p.target && p'.loaded == p.loaded
    ensures Placed(p.pc) || HoldsGoods(sh', p')
  {
  }

  lemma PlacedByStep(w: World, s: State, s': State, l: Label, pid: nat)
    requires Next(w, s, s', l) && IsPlaced(s', pid)
    ensures StillCall(s, pid, s'.procs[pid].copier) || HoldsGoods(s'.sh, s'.procs[pid].copier)
  {
    if l.Act? && l.pid == pid {
      PlacedStep(w, s.sh, s'.sh, s.procs[pid].copier, s'.procs[pid].copier, l.action.copy);
    }
  }

  /** Looking back from a copier past that point: at some moment of the very same call its manifest was the
      target's. */
  lemma {:induction false} LookBack(ss: seq<State>, i: nat, pid: nat) returns (k: nat)
    requires i < |ss| && IsPlaced(ss[i], pid) && !IsPlaced(ss[0], pid)
    requires forall n :: 0 < n <= i && IsPlaced(ss[n], pid) ==>
               StillCall(ss[n - 1], pid, ss[n].procs[pid].copier) || HoldsGoods(ss[n].sh, ss[n].procs[pid].copier)
    ensures k <= i && HoldsGoods(ss[k].sh, ss[i].procs[pid].copier)
    ensures forall n :: k <= n <= i ==> StillCall(ss[n], pid, ss[i].procs[pid].copier)
    decreases i
  {
    if HoldsGoods(ss[i].sh, ss[i].procs[pid].copier) {
      k := i;
    } else {
      k := LookBack(ss, i - 1, pid);
    }
  }

  lemma RunPlaced(w: World, ss: seq<State>, ls: seq<Label>, i: nat, pid: nat) returns (k: nat)
    requires IsRun(w, ss, ls) && i < |ss| && IsPlaced(ss[i], pid)
    ensures k <= i && HoldsGoods(ss[k].sh, ss[i].procs[pid].copier)
    ensures forall n :: k <= n <= i ==> StillCall(ss[n], pid, ss[i].procs[pid].copier)
  {
    forall n | 0 < n <= i && IsPlaced(ss[n], pid)
      ensures StillCall(ss[n - 1], pid, ss[n].procs[pid].copier) || HoldsGoods(ss[n].sh, ss[n].procs[pid].copier)
    {
      PlacedByStep(w, ss[n - 1], ss[n], ls[n - 1], pid);
    }
    k := LookBack(ss, i, pid);
  }

  /** A copy that returned Ok was stored: at a moment of the call, the k-th, the target's manifest was the copy;
      and from then on it is there, extended, exactly until a copier withdraws it. */
  lemma FinishedCopyWasStored(w: World, ss: seq<State>, ls: seq<Label>, i: nat, pid: nat) returns (k: nat)
    requires WorldOk(w) && IsRun(w, ss, ls) && Disciplined(w, {}, ss, ls) && i < |ss|
    requires pid in ss[i].procs && ss[i].procs[pid].CopyProc? && ss[i].procs[pid].copier.pc.CopyDone?
    ensures k <= i && forall n :: k <= n <= i ==> StillCall(ss[n], pid, ss[i].procs[pid].copier)
    ensures var p := ss[i].procs[pid].copier;
            && HoldsGoods(ss[k].sh, p) && ValidManifest(p.target, Goods(p))
            && forall j :: k < j < |ss| ==>
                 ((forall n :: k < n <= j ==> ManifestKept(ss[k].sh, ss[n].sh, p.target))
                  <==> NotWithdrawn(ss, ls, k, j, p.target))
  {
    k := RunPlaced(w, ss, ls, i, pid);
    RunKeepsInv(w, ss, ls, {}, k);
    var id := ss[i].procs[pid].copier.target;
    forall j | k < j < |ss|
      ensures (forall n :: k < n <= j ==> ManifestKept(ss[k].sh, ss[n].sh, id)) <==> NotWithdrawn(ss, ls, k, j, id)
    {
      ExtendsExactlyUntilWithdrawn(w, ss, ls, k, j, id);
    }
  }
}
