/**
 Batching independence.  Suppose every generation has one committed, hash-chained log and publishers only
 ever submit entries of it, in batches split, repeated, overlapped, coalesced, retried and raced at will.
 Then every checkpoint stands for a prefix of that log, and a restore, its downloads spread over any number
 of steps of other processes and of the collector, returns exactly that prefix (from the snapshot on).
 */
module ArchiveLog {
  import opened Model
  import opened Checkpoint
  import opened GcControl
  import opened Copying
  import opened Archive
  import opened ArchiveSafety
  import opened ArchiveProof
  import opened ArchiveTheorems

  /** The committed log of each generation. */
  type Log = Identity -> seq<Entry>

  ghost predicate LogOk(w: World, log: Log) {
    forall id :: Chained(w, id, log(id), Tip(0, ZERO))
  }

  /** Where the log stands after its first k entries. */
  function LogTip(entries: seq<Entry>, k: nat): Tip
    requires k <= |entries|
  {
    if k == 0 then Tip(0, ZERO) else Tip(k, entries[k - 1].hash)
  }

  predicate InLog(entries: seq<Entry>, e: Entry) {
    1 <= e.index <= |entries| && entries[e.index - 1] == e
  }

  predicate AllInLog(entries: seq<Entry>, es: seq<Entry>) {
    forall i :: 0 <= i < |es| ==> InLog(entries, es[i])
  }

  // ---------------------------------------------------------------- what stands for a part of the log

  /** The record describes exactly the entries start..end of the log. */
  ghost predicate RecordOnLog(w: World, id: Identity, entries: seq<Entry>, r: SegmentRecord) {
    && 1 <= r.start <= r.end <= |entries|
    && r == RecordOf(w, id, entries[r.start - 1..r.end])
  }

  ghost predicate IsSnapshotDigest(w: World, digest: Hash) {
    exists bytes: Bytes :: digest == w.sha(SnapshotBlob(bytes))
  }

  ghost predicate BaseOnLog(w: World, entries: seq<Entry>, b: Base) {
    && BaseTip(b).index <= |entries|
    && BaseTip(b) == LogTip(entries, BaseTip(b).index)
    && (b.Snapshot? ==> IsSnapshotDigest(w, b.snapshot.digest))
  }

  ghost predicate OnLog(w: World, log: Log, id: Identity, m: Manifest) {
    && BaseOnLog(w, log(id), m.base)
    && forall i :: 0 <= i < |m.segments| ==> RecordOnLog(w, id, log(id), m.segments[i])
  }

  ghost predicate StoreOnLog(w: World, log: Log, store: Store) {
    forall id :: ManifestKey(id) in store && store[ManifestKey(id)].blob.ManifestBlob? ==>
      OnLog(w, log, id, store[ManifestKey(id)].blob.manifest)
  }

  ghost predicate SnapshotOf(w: World, b: Base, snapshot: Option<Bytes>) {
    match b
    case Genesis => snapshot == None
    case Snapshot(s) => snapshot.Some? && w.sha(SnapshotBlob(snapshot.value)) == s.digest
  }

  /** What has been read so far is the log from the base to where the n-th segment starts. */
  ghost predicate ReadOnLog(w: World, log: Log, id: Identity, pc: ReadPc) {
    match pc
    case ReadLoaded(m) => OnLog(w, log, id, m)
    case ReadSegments(m, snapshot, es, n) =>
      && OnLog(w, log, id, m) && SnapshotOf(w, m.base, snapshot)
      && n <= |m.segments|
      && BaseTip(m.base).index <= TipBefore(m, n).index <= |log(id)|
      && es == log(id)[BaseTip(m.base).index..TipBefore(m, n).index]
    case ReadDone(m, result) =>
      && OnLog(w, log, id, m) && SnapshotOf(w, m.base, result.snapshot)
      && IsCheckpointOf(log(id), BaseTip(m.base).index, result)
    case _ => true
  }

  /** The restored checkpoint is the log from `from` to its own tip. */
  predicate IsCheckpointOf(entries: seq<Entry>, from: nat, r: Restored) {
    && from <= r.tip.index <= |entries|
    && r.suffix == entries[from..r.tip.index]
    && r.tip == LogTip(entries, r.tip.index)
  }

  ghost predicate ProcOnLog(w: World, log: Log, p: Proc) {
    match p
    case PubProc(x) => AllInLog(log(x.id), x.entries)
                       && (x.loaded.Some? ==> OnLog(w, log, x.id, x.loaded.value.manifest))
    case SnapProc(x) =>
      && (x.loaded.Some? ==> OnLog(w, log, x.id, x.loaded.value.manifest))
      && (!x.pc.SnapCalled? && !x.pc.SnapQuiet? ==> x.base.digest == w.sha(SnapshotBlob(x.bytes)))
    case ReadProc(x) => ReadOnLog(w, log, x.id, x.pc)
    case CopyProc(x) => log(x.source) == log(x.target)
                        && (x.loaded.Some? ==> OnLog(w, log, x.source, x.loaded.value.manifest))
    case _ => true
  }

  ghost predicate LogInv(w: World, log: Log, s: State) {
    && StoreOnLog(w, log, s.sh.store)
    && forall pid :: pid in s.procs ==> ProcOnLog(w, log, s.procs[pid])
  }

  // ---------------------------------------------------------------- facts about one log

  lemma LogIndex(w: World, log: Log, id: Identity, k: nat)
    requires LogOk(w, log) && k < |log(id)|
    ensures LinkOk(w, id, log(id), Tip(0, ZERO), k)
    ensures log(id)[k].index == k + 1
  {
  }

  /** A part of the log continues the tip before it. */
  lemma SliceIsChained(w: World, log: Log, id: Identity, a: nat, b: nat)
    requires LogOk(w, log) && a <= b <= |log(id)|
    ensures Chained(w, id, log(id)[a..b], LogTip(log(id), a))
    ensures EndTip(log(id)[a..b], LogTip(log(id), a)) == LogTip(log(id), b)
  {
    var es := log(id)[a..b];
    forall i | 0 <= i < |es| ensures LinkOk(w, id, es, LogTip(log(id), a), i) {
      LogIndex(w, log, id, a + i);
    }
    if a < b { LogIndex(w, log, id, b - 1); }
  }

  /** Entries of the log that continue a tip are the part of the log that follows it. */
  lemma BatchIsSlice(w: World, id: Identity, entries: seq<Entry>, es: seq<Entry>, tip: Tip)
    requires AllInLog(entries, es) && es != [] && Chained(w, id, es, tip)
    ensures tip.index + |es| <= |entries| && es == entries[tip.index..tip.index + |es|]
  {
    assert LinkOk(w, id, es, tip, |es| - 1);
    assert InLog(entries, es[|es| - 1]);
    forall i | 0 <= i < |es| ensures es[i] == entries[tip.index + i] {
      assert LinkOk(w, id, es, tip, i) && InLog(entries, es[i]);
    }
  }

  /** Before each of its segments, and at its end, a manifest on the log stands where the log stands. */
  lemma TipsOnLog(w: World, log: Log, id: Identity, m: Manifest, j: nat)
    requires LogOk(w, log) && OnLog(w, log, id, m) && j <= |m.segments|
    ensures TipBefore(m, j).index <= |log(id)|
    ensures TipBefore(m, j) == LogTip(log(id), TipBefore(m, j).index)
  {
    if j > 0 {
      var r := m.segments[j - 1];
      assert RecordOnLog(w, id, log(id), r);
      LogIndex(w, log, id, r.end - 1);
    }
  }

  lemma AppendOnLog(w: World, log: Log, id: Identity, m: Manifest, es: seq<Entry>)
    requires LogOk(w, log) && OnLog(w, log, id, m)
    requires AllInLog(log(id), es) && es != [] && Chained(w, id, es, m.tip)
    ensures OnLog(w, log, id, AppendRecord(m, RecordOf(w, id, es)))
  {
    var r := RecordOf(w, id, es);
    BatchIsSlice(w, id, log(id), es, m.tip);
    assert LinkOk(w, id, es, m.tip, 0) && LinkOk(w, id, es, m.tip, |es| - 1);
    assert RecordOnLog(w, id, log(id), r);
  }

  lemma CompactOnLog(w: World, log: Log, id: Identity, m: Manifest, s: SnapshotBase, bytes: Bytes)
    requires LogOk(w, log) && OnLog(w, log, id, m) && ValidManifest(id, m)
    requires Compact(m, s).Ok? && Compact(m, s).value.Replaced? && s.digest == w.sha(SnapshotBlob(bytes))
    ensures OnLog(w, log, id, Compact(m, s).value.manifest)
  {
    var next := Compact(m, s).value.manifest;
    var j := CompactCuts(id, m, s);
    TipsOnLog(w, log, id, m, j);
    assert IsSnapshotDigest(w, s.digest);
    forall i | 0 <= i < |next.segments| ensures RecordOnLog(w, id, log(id), next.segments[i]) {
      assert next.segments[i] == m.segments[j + i];
    }
  }

  // ---------------------------------------------------------------- reading

  /** What a record on the log loads, when it loads at all; and it does load if its object is intact. */
  lemma RecordLoads(w: World, log: Log, store: Store, id: Identity, r: SegmentRecord)
    requires CollisionFreeDigest(w) && LogOk(w, log) && RecordOnLog(w, id, log(id), r)
    ensures LoadSegment(w, store, id, r).Ok? <==> Intact(w, store, r.key, r.size, r.sha)
    ensures LoadSegment(w, store, id, r).Ok? ==> LoadSegment(w, store, id, r).value == log(id)[r.start - 1..r.end]
    ensures Chained(w, id, log(id)[r.start - 1..r.end], LogTip(log(id), r.start - 1))
  {
    var es := log(id)[r.start - 1..r.end];
    SliceIsChained(w, log, id, r.start - 1, r.end);
    if Intact(w, store, r.key, r.size, r.sha) {
      assert store[r.key].blob == SegmentBlob(es);
      forall e | e in es ensures EntryIdentity(id, e) {
        var i :| 0 <= i < |es| && es[i] == e;
        assert LinkOk(w, id, es, LogTip(log(id), r.start - 1), i);
      }
      assert LinkOk(w, id, es, LogTip(log(id), r.start - 1), |es| - 1);
    }
  }

  lemma BaseLoads(w: World, log: Log, store: Store, id: Identity, b: Base)
    requires CollisionFreeDigest(w) && BaseOnLog(w, log(id), b)
    ensures RestoreBase(w, store, b).Ok? ==> SnapshotOf(w, b, RestoreBase(w, store, b).value)
    ensures (b.Snapshot? ==> Intact(w, store, b.snapshot.key, b.snapshot.size, b.snapshot.digest))
            <==> RestoreBase(w, store, b).Ok?
  {
    if b.Snapshot? && Intact(w, store, b.snapshot.key, b.snapshot.size, b.snapshot.digest) {
      var bytes: Bytes :| b.snapshot.digest == w.sha(SnapshotBlob(bytes));
      assert store[b.snapshot.key].blob == SnapshotBlob(bytes);
    }
  }

  /** Loading the n-th segment of a valid manifest continues what the earlier ones gave. */
  lemma NextSegmentContinues(w: World, log: Log, store: Store, id: Identity, m: Manifest, n: nat)
    requires CollisionFreeDigest(w) && LogOk(w, log) && OnLog(w, log, id, m) && ValidManifest(id, m)
    requires n < |m.segments|
    ensures TipBefore(m, n).index <= TipBefore(m, n + 1).index <= |log(id)|
    ensures LoadSegment(w, store, id, m.segments[n]).Ok?
            <==> Intact(w, store, m.segments[n].key, m.segments[n].size, m.segments[n].sha)
    ensures var got := LoadSegment(w, store, id, m.segments[n]);
            got.Ok? ==>
              && got.value == log(id)[TipBefore(m, n).index..TipBefore(m, n + 1).index]
              && Chained(w, id, got.value, TipBefore(m, n))
              && EndTip(got.value, TipBefore(m, n)) == TipBefore(m, n + 1)
  {
    assert RecordOk(id, m, n);
    TipsOnLog(w, log, id, m, n);
    RecordLoads(w, log, store, id, m.segments[n]);
  }

  lemma ReadSoFarEnds(w: World, log: Log, id: Identity, m: Manifest, n: nat)
    requires LogOk(w, log) && OnLog(w, log, id, m) && n <= |m.segments|
    requires BaseTip(m.base).index <= TipBefore(m, n).index <= |log(id)|
    ensures EndTip(log(id)[BaseTip(m.base).index..TipBefore(m, n).index], BaseTip(m.base)) == TipBefore(m, n)
  {
    TipsOnLog(w, log, id, m, n);
    SliceIsChained(w, log, id, BaseTip(m.base).index, TipBefore(m, n).index);
  }

  lemma SlicesMeet(es: seq<Entry>, a: nat, b: nat, c: nat)
    requires a <= b <= c <= |es|
    ensures es[a..b] + es[b..c] == es[a..c]
  {
  }

  lemma RestoreOne(w: World, store: Store, id: Identity, segs: seq<SegmentRecord>, tip: Tip, next: Tip,
                   es: seq<Entry>, rest: seq<Entry>)
    requires segs != [] && LoadSegment(w, store, id, segs[0]) == Ok(es)
    requires Chained(w, id, es, tip) && EndTip(es, tip) == next
    requires RestoreSegments(w, store, id, segs[1..], next) == Ok(rest)
    ensures RestoreSegments(w, store, id, segs, tip) == Ok(es + rest)
  {
  }

  /** Restoring the segments of a manifest from its j-th on. */
  lemma {:induction false} SegmentsRestore(w: World, log: Log, store: Store, id: Identity, m: Manifest, j: nat)
    requires CollisionFreeDigest(w) && LogOk(w, log) && OnLog(w, log, id, m) && ValidManifest(id, m)
    requires RefsHold(w, store, m) && j <= |m.segments|
    ensures TipBefore(m, j).index <= m.tip.index <= |log(id)|
    ensures RestoreSegments(w, store, id, m.segments[j..], TipBefore(m, j))
            == Ok(log(id)[TipBefore(m, j).index..m.tip.index])
    decreases |m.segments| - j
  {
    if j == |m.segments| {
      TipsOnLog(w, log, id, m, j);
      assert m.segments[j..] == [] && log(id)[m.tip.index..m.tip.index] == [];
    } else {
      var r := m.segments[j];
      assert Intact(w, store, r.key, r.size, r.sha);
      NextSegmentContinues(w, log, store, id, m, j);
      SegmentsRestore(w, log, store, id, m, j + 1);
      RestoreOne(w, store, id, m.segments[j..], TipBefore(m, j), TipBefore(m, j + 1),
                 log(id)[TipBefore(m, j).index..TipBefore(m, j + 1).index],
                 log(id)[TipBefore(m, j + 1).index..m.tip.index]);
      assert m.segments[j..][1..] == m.segments[j + 1..];
      SlicesMeet(log(id), TipBefore(m, j).index, TipBefore(m, j + 1).index, m.tip.index);
    }
  }

  /** A valid manifest on the log whose objects are intact restores to the log. */
  lemma ManifestRestores(w: World, log: Log, store: Store, id: Identity, m: Manifest)
    requires CollisionFreeDigest(w) && LogOk(w, log) && OnLog(w, log, id, m) && ValidManifest(id, m)
    requires RefsHold(w, store, m)
    ensures var r := Restore(w, store, id, m);
            && r.Ok? && r.value.tip == m.tip
            && IsCheckpointOf(log(id), BaseTip(m.base).index, r.value)
            && SnapshotOf(w, m.base, r.value.snapshot)
  {
    BaseLoads(w, log, store, id, m.base);
    assert m.segments[0..] == m.segments;
    SegmentsRestore(w, log, store, id, m, 0);
    TipsOnLog(w, log, id, m, |m.segments|);
    ReadSoFarEnds(w, log, id, m, |m.segments|);
  }

  // ---------------------------------------------------------------- one step

  lemma EmptyOnLog(w: World, log: Log, id: Identity)
    ensures OnLog(w, log, id, EmptyManifest(id))
  {
  }

  /** Writing a manifest that is on the log. */
  lemma WriteOnLog(w: World, log: Log, sh: Shared, id: Identity, m: Manifest)
    requires StoreOnLog(w, log, sh.store) && OnLog(w, log, id, m)
    ensures StoreOnLog(w, log, Write(sh, ManifestKey(id), ManifestBlob(m)).store)
  {
  }

  lemma PubInitKeepsLog(w: World, log: Log, sh: Shared, sh': Shared, p: Pub, p': Pub)
    requires StoreOnLog(w, log, sh.store) && ProcOnLog(w, log, PubProc(p)) && PubStep(w, sh, sh', p, p', PubInit)
    ensures StoreOnLog(w, log, sh'.store) && ProcOnLog(w, log, PubProc(p'))
  {
    EmptyOnLog(w, log, p.id);
    WriteOnLog(w, log, sh, p.id, EmptyManifest(p.id));
  }

  lemma PubSwapKeepsLog(w: World, log: Log, sh: Shared, sh': Shared, p: Pub, p': Pub)
    requires LogOk(w, log) && StoreOnLog(w, log, sh.store) && ProcOnLog(w, log, PubProc(p))
    requires PubInv(w, sh, p) && PubStep(w, sh, sh', p, p', PubSwap)
    ensures StoreOnLog(w, log, sh'.store) && ProcOnLog(w, log, PubProc(p'))
  {
    AppendOnLog(w, log, p.id, p.loaded.value.manifest, p.entries[p.pc.k..]);
    WriteOnLog(w, log, sh, p.id, NextManifest(w, p, p.pc.k));
  }

  lemma MigrateOnLog(w: World, log: Log, id: Identity, m: Manifest)
    requires OnLog(w, log, id, m)
    ensures OnLog(w, log, id, Migrate(m))
  {
  }

  lemma PubMigrateKeepsLog(w: World, log: Log, sh: Shared, sh': Shared, p: Pub, p': Pub)
    requires StoreOnLog(w, log, sh.store) && ProcOnLog(w, log, PubProc(p)) && PubStep(w, sh, sh', p, p', PubMigrateSwap)
    ensures StoreOnLog(w, log, sh'.store) && ProcOnLog(w, log, PubProc(p'))
  {
    MigrateOnLog(w, log, p.id, p.loaded.value.manifest);
    WriteOnLog(w, log, sh, p.id, Migrate(p.loaded.value.manifest));
  }

  /** The other steps of a publisher leave the manifests alone. */
  lemma PubRestKeepsLog(w: World, log: Log, sh: Shared, sh': Shared, p: Pub, p': Pub, a: PubAction)
    requires StoreOnLog(w, log, sh.store) && ProcOnLog(w, log, PubProc(p)) && PubStep(w, sh, sh', p, p', a)
    requires !a.PubInit? && !a.PubSwap? && !a.PubMigrateSwap?
    ensures StoreOnLog(w, log, sh'.store) && ProcOnLog(w, log, PubProc(p'))
  {
  }

  lemma PubStepKeepsLog(w: World, log: Log, sh: Shared, sh': Shared, p: Pub, p': Pub, a: PubAction)
    requires LogOk(w, log) && StoreOnLog(w, log, sh.store) && ProcOnLog(w, log, PubProc(p))
    requires PubInv(w, sh, p) && PubStep(w, sh, sh', p, p', a)
    ensures StoreOnLog(w, log, sh'.store) && ProcOnLog(w, log, PubProc(p'))
  {
    match a
    case PubInit => PubInitKeepsLog(w, log, sh, sh', p, p');
    case PubSwap => PubSwapKeepsLog(w, log, sh, sh', p, p');
    case PubMigrateSwap => PubMigrateKeepsLog(w, log, sh, sh', p, p');
    case _ => PubRestKeepsLog(w, log, sh, sh', p, p', a);
  }

  lemma SnapStepKeepsLog(w: World, log: Log, sh: Shared, sh': Shared, p: Snap, p': Snap, a: SnapAction)
    requires LogOk(w, log) && StoreOnLog(w, log, sh.store) && ProcOnLog(w, log, SnapProc(p))
    requires SnapInv(w, sh, p) && SnapStep(w, sh, sh', p, p', a)
    ensures StoreOnLog(w, log, sh'.store) && ProcOnLog(w, log, SnapProc(p'))
  {
    if a.SnapSwap? { CompactOnLog(w, log, p.id, p.loaded.value.manifest, p.base, p.bytes); }
  }

  /** Copying to a generation with the same log. */
  lemma CopyOnLog(w: World, log: Log, source: Identity, target: Identity, m: Manifest)
    requires log(source) == log(target) && OnLog(w, log, source, m)
    ensures OnLog(w, log, target, CopyOf(target, m))
  {
    var copy := CopyOf(target, m);
    forall i | 0 <= i < |copy.segments| ensures RecordOnLog(w, target, log(target), copy.segments[i]) {
      assert RecordOnLog(w, source, log(source), m.segments[i]);
    }
  }

  lemma CopyStepKeepsLog(w: World, log: Log, sh: Shared, sh': Shared, p: Copier, p': Copier, a: CopyAction)
    requires StoreOnLog(w, log, sh.store) && ProcOnLog(w, log, CopyProc(p)) && CopyStep(w, sh, sh', p, p', a)
    ensures StoreOnLog(w, log, sh'.store) && ProcOnLog(w, log, CopyProc(p'))
  {
    if a.CopyPut? { ParcelKey(p.target, p.loaded.value.manifest, p.pc.n); }
    if a.CopyPublish? { CopyOnLog(w, log, p.source, p.target, p.loaded.value.manifest); }
  }

  /** Reading on to the next tip. */
  lemma ReadOneMore(w: World, log: Log, id: Identity, pc: ReadPc, es: seq<Entry>)
    requires pc.ReadSegments? && ReadOnLog(w, log, id, pc) && pc.n < |pc.manifest.segments|
    requires TipBefore(pc.manifest, pc.n).index <= TipBefore(pc.manifest, pc.n + 1).index <= |log(id)|
    requires es == log(id)[TipBefore(pc.manifest, pc.n).index..TipBefore(pc.manifest, pc.n + 1).index]
    ensures ReadOnLog(w, log, id, ReadSegments(pc.manifest, pc.snapshot, pc.es + es, pc.n + 1))
  {
    var m := pc.manifest;
    SlicesMeet(log(id), BaseTip(m.base).index, TipBefore(m, pc.n).index, TipBefore(m, pc.n + 1).index);
  }

  lemma ReadSegmentKeepsLog(w: World, log: Log, store: Store, id: Identity, pc: ReadPc, es: seq<Entry>)
    requires CollisionFreeDigest(w) && LogOk(w, log) && pc.ReadSegments? && ReadOnLog(w, log, id, pc)
    requires ValidManifest(id, pc.manifest) && pc.n < |pc.manifest.segments|
    requires LoadSegment(w, store, id, pc.manifest.segments[pc.n]) == Ok(es)
    ensures ReadOnLog(w, log, id, ReadSegments(pc.manifest, pc.snapshot, pc.es + es, pc.n + 1))
  {
    NextSegmentContinues(w, log, store, id, pc.manifest, pc.n);
    ReadOneMore(w, log, id, pc, es);
  }

  lemma ReadFinishKeepsLog(w: World, log: Log, id: Identity, pc: ReadPc)
    requires LogOk(w, log) && pc.ReadSegments? && ReadOnLog(w, log, id, pc)
    requires ValidManifest(id, pc.manifest) && pc.n == |pc.manifest.segments|
    ensures ReadOnLog(w, log, id, ReadDone(pc.manifest, Restored(pc.snapshot, pc.es, pc.manifest.tip)))
  {
    TipsOnLog(w, log, id, pc.manifest, pc.n);
  }

  lemma ReadBaseKeepsLog(w: World, log: Log, sh: Shared, p: Read, p': Read)
    requires CollisionFreeDigest(w) && ReadOnLog(w, log, p.id, p.pc) && ReadStep(w, sh, sh, p, p', ReadBase)
    ensures ReadOnLog(w, log, p'.id, p'.pc)
  {
    var m := p.pc.manifest;
    BaseLoads(w, log, sh.store, p.id, m.base);
    assert log(p.id)[BaseTip(m.base).index..BaseTip(m.base).index] == [];
  }

  lemma ReadObjectKeepsLog(w: World, log: Log, sh: Shared, p: Read, p': Read)
    requires CollisionFreeDigest(w) && LogOk(w, log) && ReadOnLog(w, log, p.id, p.pc)
    requires ReadHolding(p.pc) ==> ValidManifest(p.id, p.pc.manifest)
    requires ReadStep(w, sh, sh, p, p', ReadSegment)
    ensures ReadOnLog(w, log, p'.id, p'.pc)
  {
    var got := LoadSegment(w, sh.store, p.id, p.pc.manifest.segments[p.pc.n]);
    if got.Ok? { ReadSegmentKeepsLog(w, log, sh.store, p.id, p.pc, got.value); }
  }

  lemma ReadStepKeepsLog(w: World, log: Log, sh: Shared, sh': Shared, p: Read, p': Read, a: ReadAction)
    requires CollisionFreeDigest(w) && LogOk(w, log) && StoreOnLog(w, log, sh.store) && ReadOnLog(w, log, p.id, p.pc)
    requires ReadHolding(p.pc) ==> ValidManifest(p.id, p.pc.manifest)
    requires ReadStep(w, sh, sh', p, p', a)
    ensures ReadOnLog(w, log, p'.id, p'.pc)
  {
    match a
    case ReadManifest => EmptyOnLog(w, log, p.id);
    case ReadBase => ReadBaseKeepsLog(w, log, sh, p, p');
    case ReadSegment => ReadObjectKeepsLog(w, log, sh, p, p');
    case ReadFinish => ReadFinishKeepsLog(w, log, p.id, p.pc);
    case _ =>
  }

  lemma SameContentOnLog(w: World, log: Log, store: Store, store': Store)
    requires StoreOnLog(w, log, store) && forall id :: ContentOf(store, id) == ContentOf(store', id)
    ensures StoreOnLog(w, log, store')
  {
    forall id | ManifestKey(id) in store' && store'[ManifestKey(id)].blob.ManifestBlob?
      ensures OnLog(w, log, id, store'[ManifestKey(id)].blob.manifest)
    {
      assert ContentOf(store, id) == ContentOf(store', id);
    }
  }

  lemma OtherStepKeepsLog(w: World, log: Log, sh: Shared, sh': Shared, p: Proc, p': Proc, a: Action)
    requires StoreOnLog(w, log, sh.store) && ActorStep(w, sh, sh', p, p', a) && !a.ByPub? && !a.BySnap? && !a.ByCopy?
    ensures StoreOnLog(w, log, sh'.store)
  {
    forall id ensures ContentOf(sh.store, id) == ContentOf(sh'.store, id) { OthersWriteNone(w, sh, sh', p, p', a, id); }
    SameContentOnLog(w, log, sh.store, sh'.store);
  }

  /** Publishers draw their batches from the log; a copy is made to a generation of the same log. */
  ghost predicate ProcDraws(log: Log, p: Proc) {
    match p
    case PubProc(x) => AllInLog(log(x.id), x.entries)
    case CopyProc(x) => log(x.source) == log(x.target)
    case _ => true
  }

  ghost predicate DrawsFromLog(log: Log, l: Label) {
    l.Begin? ==> ProcDraws(log, l.proc)
  }

  lemma BeginKeepsLog(w: World, log: Log, s: State, p: Proc)
    requires LogInv(w, log, s) && CanBegin(s, p)
    requires ProcDraws(log, p)
    ensures ProcOnLog(w, log, p)
  {
    forall q | q in s.procs ensures ProcOnLog(w, log, s.procs[q]) {}
  }

  lemma PubActKeepsLog(w: World, log: Log, sh: Shared, sh': Shared, p: Proc, p': Proc, a: Action)
    requires LogOk(w, log) && StoreOnLog(w, log, sh.store) && ProcOnLog(w, log, p)
    requires ProcInv(w, sh, p, false) && ActorStep(w, sh, sh', p, p', a) && a.ByPub?
    ensures StoreOnLog(w, log, sh'.store) && ProcOnLog(w, log, p')
  {
    PubStepKeepsLog(w, log, sh, sh', p.pub, p'.pub, a.pub);
  }

  lemma SnapActKeepsLog(w: World, log: Log, sh: Shared, sh': Shared, p: Proc, p': Proc, a: Action)
    requires LogOk(w, log) && StoreOnLog(w, log, sh.store) && ProcOnLog(w, log, p)
    requires ProcInv(w, sh, p, false) && ActorStep(w, sh, sh', p, p', a) && a.BySnap?
    ensures StoreOnLog(w, log, sh'.store) && ProcOnLog(w, log, p')
  {
    SnapStepKeepsLog(w, log, sh, sh', p.snap, p'.snap, a.snap);
  }

  lemma CopyActKeepsLog(w: World, log: Log, sh: Shared, sh': Shared, p: Proc, p': Proc, a: Action)
    requires StoreOnLog(w, log, sh.store) && ProcOnLog(w, log, p) && ActorStep(w, sh, sh', p, p', a) && a.ByCopy?
    ensures StoreOnLog(w, log, sh'.store) && ProcOnLog(w, log, p')
  {
    CopyStepKeepsLog(w, log, sh, sh', p.copier, p'.copier, a.copy);
  }

  lemma RestActsKeepLog(w: World, log: Log, sh: Shared, sh': Shared, p: Proc, p': Proc, a: Action)
    requires CollisionFreeDigest(w) && LogOk(w, log) && StoreOnLog(w, log, sh.store) && ProcOnLog(w, log, p)
    requires ProcInv(w, sh, p, false) && ActorStep(w, sh, sh', p, p', a) && !a.ByPub? && !a.BySnap? && !a.ByCopy?
    ensures StoreOnLog(w, log, sh'.store) && ProcOnLog(w, log, p')
  {
    OtherStepKeepsLog(w, log, sh, sh', p, p', a);
    if a.ByRead? { ReadStepKeepsLog(w, log, sh, sh', p.read, p'.read, a.read); }
  }

  lemma ActKeepsLog(w: World, log: Log, sh: Shared, sh': Shared, p: Proc, p': Proc, a: Action)
    requires CollisionFreeDigest(w) && LogOk(w, log) && StoreOnLog(w, log, sh.store) && ProcOnLog(w, log, p)
    requires ProcInv(w, sh, p, false) && ActorStep(w, sh, sh', p, p', a)
    ensures StoreOnLog(w, log, sh'.store) && ProcOnLog(w, log, p')
  {
    if a.ByPub? {
      PubActKeepsLog(w, log, sh, sh', p, p', a);
    } else if a.BySnap? {
      SnapActKeepsLog(w, log, sh, sh', p, p', a);
    } else if a.ByCopy? {
      CopyActKeepsLog(w, log, sh, sh', p, p', a);
    } else {
      RestActsKeepLog(w, log, sh, sh', p, p', a);
    }
  }

  lemma NextKeepsLog(w: World, log: Log, s: State, s': State, l: Label)
    requires CollisionFreeDigest(w) && LogOk(w, log) && LogInv(w, log, s)
    requires Next(w, s, s', l) && DrawsFromLog(log, l)
    requires l.Act? ==> ProcInv(w, s.sh, s.procs[l.pid], false)
    ensures LogInv(w, log, s')
  {
    match l
    case Advance(_) =>
    case Call(_) =>
    case Begin(_, p) => BeginKeepsLog(w, log, s, p);
    case Act(pid, a) => ActKeepsLog(w, log, s.sh, s'.sh, s.procs[pid], s'.procs[pid], a);
  }

  // ---------------------------------------------------------------- whole runs

  /** A run of publishers that draw from the log, on a store that held nothing else to begin with. */
  ghost predicate LogRun(w: World, log: Log, ss: seq<State>, ls: seq<Label>) {
    && IsRun(w, ss, ls) && LogOk(w, log)
    && StoreOnLog(w, log, ss[0].sh.store)
    && forall i :: 0 <= i < |ls| ==> DrawsFromLog(log, ls[i])
  }

  lemma ForgetTracking(w: World, s: State, tracked: set<nat>)
    requires Inv(w, tracked, s)
    ensures forall pid :: pid in s.procs ==> ProcInv(w, s.sh, s.procs[pid], false)
  {
    forall pid | pid in s.procs ensures ProcInv(w, s.sh, s.procs[pid], false) {
      assert ProcInv(w, s.sh, s.procs[pid], pid in tracked);
    }
  }

  lemma {:induction false} RunKeepsLog(w: World, log: Log, ss: seq<State>, ls: seq<Label>, tracked: set<nat>, i: nat)
    requires WorldOk(w) && LogRun(w, log, ss, ls) && Disciplined(w, tracked, ss, ls) && i < |ss|
    ensures LogInv(w, log, ss[i])
  {
    if i > 0 {
      RunKeepsLog(w, log, ss, ls, tracked, i - 1);
      RunKeepsInv(w, ss, ls, tracked, i - 1);
      ForgetTracking(w, ss[i - 1], tracked);
      NextKeepsLog(w, log, ss[i - 1], ss[i], ls[i - 1]);
    }
  }

  /** In every state, the manifest of a generation that is not retired restores, and to the log: to all of it
      up to the tip if the manifest starts at genesis, to the part after the snapshot otherwise. */
  lemma EveryCheckpointIsTheLog(w: World, log: Log, ss: seq<State>, ls: seq<Label>, i: nat, id: Identity)
    requires WorldOk(w) && LogRun(w, log, ss, ls) && Disciplined(w, {}, ss, ls) && i < |ss|
    requires ManifestKey(id) in ss[i].sh.store && !IsRetired(ss[i].sh.h.control, id)
    ensures ss[i].sh.store[ManifestKey(id)].blob.ManifestBlob?
    ensures var m := ss[i].sh.store[ManifestKey(id)].blob.manifest;
            var r := Restore(w, ss[i].sh.store, id, m);
            && r.Ok? && r.value.tip == m.tip
            && IsCheckpointOf(log(id), BaseTip(m.base).index, r.value)
            && SnapshotOf(w, m.base, r.value.snapshot)
            && (m.base.Genesis? ==> r.value == Restored(None, log(id)[..m.tip.index], m.tip))
  {
    RunKeepsLog(w, log, ss, ls, {}, i);
    NothingInForceIsMissing(w, ss, ls, i, id);
    ManifestRestores(w, log, ss[i].sh.store, id, ss[i].sh.store[ManifestKey(id)].blob.manifest);
  }

  /** A restore that completes, whether or not its lease held, returns the log. */
  lemma EveryRestoreIsTheLog(w: World, log: Log, ss: seq<State>, ls: seq<Label>, i: nat, pid: nat)
    requires WorldOk(w) && LogRun(w, log, ss, ls) && Disciplined(w, {}, ss, ls) && i < |ss|
    requires pid in ss[i].procs && ss[i].procs[pid].ReadProc? && ss[i].procs[pid].read.pc.ReadDone?
    ensures var p := ss[i].procs[pid].read;
            && SnapshotOf(w, p.pc.manifest.base, p.pc.result.snapshot)
            && IsCheckpointOf(log(p.id), BaseTip(p.pc.manifest.base).index, p.pc.result)
  {
    RunKeepsLog(w, log, ss, ls, {}, i);
    assert ProcOnLog(w, log, ss[i].procs[pid]);
  }

  /** No download or check of a reader fails while everything its manifest references is intact. */
  lemma IntactReadDoesNotFail(w: World, log: Log, sh: Shared, sh': Shared, p: Read, p': Read, a: ReadAction)
    requires CollisionFreeDigest(w) && LogOk(w, log) && ReadOnLog(w, log, p.id, p.pc)
    requires ReadHolding(p.pc) ==> ValidManifest(p.id, p.pc.manifest) && RefsHold(w, sh.store, p.pc.manifest)
    requires ReadStep(w, sh, sh', p, p', a)
    ensures !p'.pc.ReadFailed?
  {
    match a
    case ReadBase => BaseLoads(w, log, sh.store, p.id, p.pc.manifest.base);
    case ReadSegment =>
      var m, n := p.pc.manifest, p.pc.n;
      assert Intact(w, sh.store, m.segments[n].key, m.segments[n].size, m.segments[n].sha);
      NextSegmentContinues(w, log, sh.store, p.id, m, n);
      ReadSoFarEnds(w, log, p.id, m, n);
    case ReadFinish => ReadSoFarEnds(w, log, p.id, p.pc.manifest, p.pc.n);
    case _ =>
  }

  /** A restore whose reader lease stays live never fails, whatever publishers and collectors do meanwhile. */
  lemma {:induction false} LeasedRestoreNeverFails(w: World, log: Log, ss: seq<State>, ls: seq<Label>, i: nat, pid: nat)
    requires WorldOk(w) && LogRun(w, log, ss, ls) && Disciplined(w, {pid}, ss, ls) && i < |ss|
    requires pid in ss[i].procs && ss[i].procs[pid].ReadProc?
    ensures !ss[i].procs[pid].read.pc.ReadFailed?
  {
    if i > 0 && pid in ss[i - 1].procs && ss[i - 1].procs[pid].ReadProc? {
      LeasedRestoreNeverFails(w, log, ss, ls, i - 1, pid);
      RunKeepsInv(w, ss, ls, {pid}, i - 1);
      RunKeepsLog(w, log, ss, ls, {pid}, i - 1);
      LeasedStepDoesNotFail(w, log, ss[i - 1], ss[i], ls[i - 1], pid);
    }
  }

  lemma ReaderAt(w: World, log: Log, s: State, pid: nat)
    requires LogInv(w, log, s) && Inv(w, {pid}, s) && pid in s.procs
    ensures ProcInv(w, s.sh, s.procs[pid], true) && ProcOnLog(w, log, s.procs[pid])
  {
    assert ProcInv(w, s.sh, s.procs[pid], pid in {pid});
  }

  lemma LeasedReadDoesNotFail(w: World, log: Log, sh: Shared, sh': Shared, p: Proc, p': Proc, a: Action)
    requires CollisionFreeDigest(w) && LogOk(w, log) && ProcInv(w, sh, p, true) && ProcOnLog(w, log, p)
    requires ActorStep(w, sh, sh', p, p', a) && p.ReadProc? && p'.ReadProc? && !p.read.pc.ReadFailed?
    ensures !p'.read.pc.ReadFailed?
  {
    IntactReadDoesNotFail(w, log, sh, sh', p.read, p'.read, a.read);
  }

  lemma LeasedStepDoesNotFail(w: World, log: Log, s: State, s': State, l: Label, pid: nat)
    requires CollisionFreeDigest(w) && LogOk(w, log) && LogInv(w, log, s) && Inv(w, {pid}, s) && Next(w, s, s', l)
    requires pid in s.procs && s.procs[pid].ReadProc? && !s.procs[pid].read.pc.ReadFailed?
    requires pid in s'.procs && s'.procs[pid].ReadProc?
    ensures !s'.procs[pid].read.pc.ReadFailed?
  {
    if l.Act? && l.pid == pid {
      ReaderAt(w, log, s, pid);
      LeasedReadDoesNotFail(w, log, s.sh, s'.sh, s.procs[pid], s'.procs[pid], l.action);
    }
  }
}
