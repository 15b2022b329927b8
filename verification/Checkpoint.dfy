/**
 Checkpoint manifests and the log they stand for: validation, restore, and the three ways a publisher
 rewrites a manifest (append a segment, compact behind a snapshot, migrate the format).
 */
module Checkpoint {
  import opened Model

  const CHECKPOINT_FORMAT: nat := 2
  const CHECKPOINT_V1_FORMAT: nat := 1
  const SEGMENT_FORMAT: nat := 1
  const ANCHOR_FORMAT: nat := 2
  const ANCHOR_V1_FORMAT: nat := 1

  // ---------------------------------------------------------------- validity

  function BaseTip(b: Base): Tip {
    match b
    case Genesis => Tip(0, ZERO)
    case Snapshot(s) => s.anchor.compacted
  }

  function SnapshotKeyOf(id: Identity, a: Anchor): Key {
    SnapshotKey(id, a.compacted.index, a.compacted.hash, a.digest, a.fingerprint)
  }

  predicate ValidAnchor(id: Identity, a: Anchor) {
    && (a.format == ANCHOR_FORMAT || a.format == ANCHOR_V1_FORMAT)
    && a.cluster == id.cluster && a.epoch == id.epoch
    && a.config == id.config && a.generation == id.generation
    && a.state.config == a.config
    && (a.state.stop.Some? ==> a.state.stop.value == a.compacted)
  }

  predicate ValidSnapshotBase(id: Identity, s: SnapshotBase) {
    && ValidAnchor(id, s.anchor)
    && s.digest == s.anchor.digest
    && s.fingerprint == s.anchor.fingerprint
    && s.size != 0 && s.size == s.anchor.size
    && s.key == SnapshotKeyOf(id, s.anchor)
  }

  /** The tip the manifest has reached before its i-th segment. */
  function TipBefore(m: Manifest, i: nat): Tip
    requires i <= |m.segments|
  {
    if i == 0 then BaseTip(m.base) else Tip(m.segments[i - 1].end, m.segments[i - 1].lastHash)
  }

  predicate ValidRecord(id: Identity, r: SegmentRecord, before: Tip) {
    && r.format == SEGMENT_FORMAT
    && r.start <= r.end < MAX_U64
    && r.start == before.index + 1
    && r.firstPrev == before.hash
    && r.key == SegmentKey(id, r.start, r.end)
    && r.size != 0
  }

  predicate ValidHeader(id: Identity, m: Manifest) {
    && (m.format == CHECKPOINT_FORMAT || m.format == CHECKPOINT_V1_FORMAT)
    && (m.format == CHECKPOINT_V1_FORMAT ==> m.base.Genesis?)
    && m.identity == id
    && (m.base.Snapshot? ==> ValidSnapshotBase(id, m.base.snapshot))
    && BaseTip(m.base).index < MAX_U64
  }

  /** The i-th segment continues what precedes it. */
  predicate RecordOk(id: Identity, m: Manifest, i: nat)
    requires i < |m.segments|
  {
    ValidRecord(id, m.segments[i], TipBefore(m, i))
  }

  /** A manifest is a base, then segments that continue it without gap, overlap or broken hash link,
      and a tip equal to where the last of them ends. */
  ghost predicate ValidManifest(id: Identity, m: Manifest) {
    && ValidHeader(id, m)
    && (forall i :: 0 <= i < |m.segments| ==> RecordOk(id, m, i))
    && m.tip == TipBefore(m, |m.segments|)
  }

  /** The validation loop, with its running expectations. */
  method ValidateManifest(id: Identity, m: Manifest) returns (r: Result<()>)
    ensures r.Ok? <==> ValidManifest(id, m)
  {
    if m.format != CHECKPOINT_FORMAT && m.format != CHECKPOINT_V1_FORMAT {
      return Err(UnsupportedFormat);
    }
    if m.format == CHECKPOINT_V1_FORMAT && !m.base.Genesis? { return Err(InvalidCheckpoint); }
    if m.identity != id { return Err(IdentityMismatch); }
    if m.base.Snapshot? && !ValidSnapshotBase(id, m.base.snapshot) { return Err(InvalidCheckpoint); }
    var baseTip := BaseTip(m.base);
    if baseTip.index >= MAX_U64 { return Err(InvalidCheckpoint); }
    var expectedStart := baseTip.index + 1;
    var expectedHash := baseTip.hash;
    var n := 0;
    while n < |m.segments|
      invariant 0 <= n <= |m.segments|
      invariant expectedStart == TipBefore(m, n).index + 1 && expectedHash == TipBefore(m, n).hash
      invariant forall i :: 0 <= i < n ==> RecordOk(id, m, i)
    {
      var record := m.segments[n];
      assert ValidManifest(id, m) ==> RecordOk(id, m, n);
      if record.format != SEGMENT_FORMAT { return Err(UnsupportedFormat); }
      if record.start > record.end { return Err(InvalidCheckpoint); }
      if record.start != expectedStart { return Err(InvalidCheckpoint); }
      if record.firstPrev != expectedHash { return Err(InvalidCheckpoint); }
      if record.key != SegmentKey(id, record.start, record.end) { return Err(InvalidCheckpoint); }
      if record.size == 0 { return Err(InvalidCheckpoint); }
      if record.end >= MAX_U64 { return Err(InvalidCheckpoint); }
      expectedStart := record.end + 1;
      expectedHash := record.lastHash;
      n := n + 1;
    }
    if m.tip != (if m.segments == [] then baseTip else
                 Tip(m.segments[|m.segments| - 1].end, m.segments[|m.segments| - 1].lastHash)) {
      return Err(InvalidCheckpoint);
    }
    return Ok(());
  }

  // ---------------------------------------------------------------- entries

  predicate EntryIdentity(id: Identity, e: Entry) {
    id.cluster == e.cluster && id.epoch == e.epoch && id.config == e.config
  }

  predicate HashIsValid(w: World, e: Entry) {
    w.entryHash(PreimageOf(e)) == e.hash
  }

  function EndTip(es: seq<Entry>, tip: Tip): Tip {
    if es == [] then tip else Tip(es[|es| - 1].index, es[|es| - 1].hash)
  }

  /** The i-th entry after `tip` has the next index, links to its predecessor, and hashes correctly. */
  predicate LinkOk(w: World, id: Identity, es: seq<Entry>, tip: Tip, i: nat)
    requires i < |es|
  {
    && EntryIdentity(id, es[i])
    && es[i].index == tip.index + 1 + i <= MAX_U64
    && es[i].prev == (if i == 0 then tip.hash else es[i - 1].hash)
    && HashIsValid(w, es[i])
  }

  /** The entries continue `tip`. */
  predicate Chained(w: World, id: Identity, es: seq<Entry>, tip: Tip) {
    forall i :: 0 <= i < |es| ==> LinkOk(w, id, es, tip, i)
  }

  lemma ChainedConcat(w: World, id: Identity, a: seq<Entry>, b: seq<Entry>, tip: Tip)
    requires Chained(w, id, a, tip) && Chained(w, id, b, EndTip(a, tip))
    ensures Chained(w, id, a + b, tip)
  {
    ChainedIndex(w, id, a, tip);
    forall i | 0 <= i < |a + b| ensures LinkOk(w, id, a + b, tip, i) {
      if i < |a| {
        assert LinkOk(w, id, a, tip, i);
      } else {
        assert LinkOk(w, id, b, EndTip(a, tip), i - |a|);
      }
    }
  }

  lemma ChainedIndex(w: World, id: Identity, es: seq<Entry>, tip: Tip)
    requires Chained(w, id, es, tip)
    ensures EndTip(es, tip).index == tip.index + |es|
  {
    if es != [] { assert LinkOk(w, id, es, tip, |es| - 1); }
  }

  method ValidateDecodedEntries(w: World, id: Identity, es: seq<Entry>, tip: Tip) returns (r: Result<()>)
    ensures r.Ok? <==> Chained(w, id, es, tip)
  {
    var index, hash := tip.index, tip.hash;
    for n := 0 to |es|
      invariant index == tip.index + n
      invariant hash == (if n == 0 then tip.hash else es[n - 1].hash)
      invariant forall i :: 0 <= i < n ==> LinkOk(w, id, es, tip, i)
    {
      var entry := es[n];
      assert Chained(w, id, es, tip) ==> LinkOk(w, id, es, tip, n);
      if !EntryIdentity(id, entry) { return Err(IdentityMismatch); }
      if index >= MAX_U64 { return Err(InvalidCheckpoint); }
      index := index + 1;
      if entry.index != index { return Err(InvalidCheckpoint); }
      if entry.prev != hash { return Err(InvalidCheckpoint); }
      if !HashIsValid(w, entry) { return Err(InvalidCheckpoint); }
      hash := entry.hash;
    }
    return Ok(());
  }

  /** What a caller may submit: a non-empty batch is a chain of its own. */
  predicate ValidPublication(w: World, id: Identity, es: seq<Entry>) {
    forall i :: 0 <= i < |es| ==>
      && EntryIdentity(id, es[i])
      && HashIsValid(w, es[i])
      && (i > 0 ==> es[i].index == es[i - 1].index + 1 <= MAX_U64 && es[i].prev == es[i - 1].hash)
  }

  lemma {:induction false} PublicationIndex(w: World, id: Identity, es: seq<Entry>, k: nat)
    requires ValidPublication(w, id, es) && k < |es|
    ensures es[k].index == es[0].index + k
  {
    if k > 0 { PublicationIndex(w, id, es, k - 1); }
  }

  /** The part of a batch that follows the tip is a chain from the tip, once the link itself fits. */
  lemma {:induction false} PublicationSuffixIsChained(w: World, id: Identity, es: seq<Entry>, k: nat, tip: Tip)
    requires ValidPublication(w, id, es) && k < |es|
    requires es[k].index == tip.index + 1 <= MAX_U64 && es[k].prev == tip.hash
    ensures Chained(w, id, es[k..], tip)
  {
    forall i | 0 <= i < |es[k..]| ensures LinkOk(w, id, es[k..], tip, i) {
      PublicationIndex(w, id, es, k);
      PublicationIndex(w, id, es, k + i);
      assert es[k..][i] == es[k + i];
      if i > 0 { assert es[k..][i - 1] == es[k + i - 1]; }
    }
  }

  // ---------------------------------------------------------------- reading the store

  predicate HasManifest(store: Store, id: Identity, m: Manifest) {
    ManifestKey(id) in store && store[ManifestKey(id)].blob == ManifestBlob(m)
  }

  /** The stored manifest is this one, at this version. */
  predicate StoredAs(store: Store, id: Identity, ld: Loaded) {
    HasManifest(store, id, ld.manifest) && store[ManifestKey(id)].version == ld.version
  }

  function Download(w: World, store: Store, key: Key, size: nat, sha: Hash): Result<Blob> {
    if key !in store then Err(NotFound)
    else if w.size(store[key].blob) != size then Err(SizeMismatch)
    else if w.sha(store[key].blob) != sha then Err(ChecksumMismatch)
    else Ok(store[key].blob)
  }

  predicate Intact(w: World, store: Store, key: Key, size: nat, sha: Hash) {
    Download(w, store, key, size, sha).Ok?
  }

  /** Every object the manifest references is in the store and passes its size and checksum test. */
  ghost predicate RefsHold(w: World, store: Store, m: Manifest) {
    && (m.base.Snapshot? ==>
          Intact(w, store, m.base.snapshot.key, m.base.snapshot.size, m.base.snapshot.digest))
    && (forall i :: 0 <= i < |m.segments| ==>
          Intact(w, store, m.segments[i].key, m.segments[i].size, m.segments[i].sha))
  }

  predicate RecordMatches(r: SegmentRecord, es: seq<Entry>) {
    && es != []
    && r.start <= r.end
    && |es| == r.end - r.start + 1
    && es[0].index == r.start
    && es[|es| - 1].index == r.end
    && es[0].prev == r.firstPrev
    && es[|es| - 1].hash == r.lastHash
  }

  function LoadSegment(w: World, store: Store, id: Identity, r: SegmentRecord): Result<seq<Entry>> {
    match Download(w, store, r.key, r.size, r.sha)
    case Err(e) => Err(e)
    case Ok(ManifestBlob(_)) => Err(InvalidCheckpoint)
    case Ok(SnapshotBlob(_)) => Err(InvalidCheckpoint)
    case Ok(SegmentBlob(es)) =>
      if !(forall e :: e in es ==> EntryIdentity(id, e)) then Err(IdentityMismatch)
      else if !RecordMatches(r, es) then Err(InvalidCheckpoint)
      else Ok(es)
  }

  datatype Restored = Restored(snapshot: Option<Bytes>, suffix: seq<Entry>, tip: Tip)

  function RestoreSegments(w: World, store: Store, id: Identity, segs: seq<SegmentRecord>, tip: Tip)
    : Result<seq<Entry>>
  {
    if segs == [] then Ok([]) else
    match LoadSegment(w, store, id, segs[0])
    case Err(e) => Err(e)
    case Ok(es) =>
      if !Chained(w, id, es, tip) then Err(InvalidCheckpoint)
      else match RestoreSegments(w, store, id, segs[1..], EndTip(es, tip))
           case Err(e) => Err(e)
           case Ok(rest) => Ok(es + rest)
  }

  function RestoreBase(w: World, store: Store, b: Base): Result<Option<Bytes>> {
    match b
    case Genesis => Ok(None)
    case Snapshot(s) =>
      match Download(w, store, s.key, s.size, s.digest)
      case Err(e) => Err(e)
      case Ok(ManifestBlob(_)) => Err(InvalidCheckpoint)
      case Ok(SegmentBlob(_)) => Err(InvalidCheckpoint)
      case Ok(SnapshotBlob(bytes)) => Ok(Some(bytes))
  }

  /** What restoring a loaded manifest yields. */
  function Restore(w: World, store: Store, id: Identity, m: Manifest): Result<Restored> {
    match RestoreBase(w, store, m.base)
    case Err(e) => Err(e)
    case Ok(snapshot) =>
      match RestoreSegments(w, store, id, m.segments, BaseTip(m.base))
      case Err(e) => Err(e)
      case Ok(es) =>
        if EndTip(es, BaseTip(m.base)) != m.tip then Err(InvalidCheckpoint)
        else Ok(Restored(snapshot, es, m.tip))
  }

  lemma {:induction false} RestoreSegmentsStep(w: World, store: Store, id: Identity,
                                               segs: seq<SegmentRecord>, n: nat, tip: Tip)
    requires n < |segs|
    requires RestoreSegments(w, store, id, segs[..n], tip).Ok?
    ensures var done := RestoreSegments(w, store, id, segs[..n], tip).value;
            var es := LoadSegment(w, store, id, segs[n]);
            if es.Ok? && Chained(w, id, es.value, EndTip(done, tip))
            then RestoreSegments(w, store, id, segs[..n + 1], tip) == Ok(done + es.value)
            else RestoreSegments(w, store, id, segs, tip).Err?
                 && (es.Err? ==> RestoreSegments(w, store, id, segs, tip) == Err(es.error))
                 && (es.Ok? ==> RestoreSegments(w, store, id, segs, tip) == Err(InvalidCheckpoint))
  {
    if n == 0 {
      assert segs[..1] == [segs[0]] && segs[..1][1..] == [];
      var es := LoadSegment(w, store, id, segs[0]);
      if es.Ok? { assert [] + es.value == es.value + []; }
    } else {
      var head := LoadSegment(w, store, id, segs[0]).value;
      assert segs[..n][1..] == segs[1..][..n - 1];
      assert segs[..n + 1][1..] == segs[1..][..n];
      RestoreSegmentsStep(w, store, id, segs[1..], n - 1, EndTip(head, tip));
      var rest := RestoreSegments(w, store, id, segs[1..][..n - 1], EndTip(head, tip)).value;
      EndTipConcat(head, rest, tip);
      var last := LoadSegment(w, store, id, segs[n]);
      if last.Ok? { assert head + (rest + last.value) == (head + rest) + last.value; }
    }
  }

  /** The restore loop: downloads in order, checking each segment against the running tip. */
  method RestoreCheckpoint(w: World, store: Store, id: Identity, m: Manifest) returns (r: Result<Restored>)
    ensures r == Restore(w, store, id, m)
  {
    var snapshot: Option<Bytes> := None;
    if m.base.Snapshot? {
      var s := m.base.snapshot;
      var blob := Download(w, store, s.key, s.size, s.digest);
      if blob.Err? { return Err(blob.error); }
      if !blob.value.SnapshotBlob? { return Err(InvalidCheckpoint); }
      snapshot := Some(blob.value.bytes);
    }
    var base := BaseTip(m.base);
    var restored: seq<Entry> := [];
    var expectedTip := base;
    for n := 0 to |m.segments|
      invariant RestoreSegments(w, store, id, m.segments[..n], base) == Ok(restored)
      invariant expectedTip == EndTip(restored, base)
    {
      RestoreSegmentsStep(w, store, id, m.segments, n, base);
      var es := LoadSegment(w, store, id, m.segments[n]);
      if es.Err? { return Err(es.error); }
      if !Chained(w, id, es.value, expectedTip) { return Err(InvalidCheckpoint); }
      restored := restored + es.value;
      expectedTip := Tip(es.value[|es.value| - 1].index, es.value[|es.value| - 1].hash);
    }
    assert m.segments[..|m.segments|] == m.segments;
    if expectedTip != m.tip { return Err(InvalidCheckpoint); }
    return Ok(Restored(snapshot, restored, expectedTip));
  }

  // ---------------------------------------------------------------- coverage and extension

  /** The record that covers a log index: the first whose range contains it. */
  function RecordAt(segs: seq<SegmentRecord>, i: nat): Option<SegmentRecord> {
    if segs == [] then None
    else if segs[0].start <= i <= segs[0].end then Some(segs[0])
    else RecordAt(segs[1..], i)
  }

  lemma {:induction false} RecordAtConcat(a: seq<SegmentRecord>, b: seq<SegmentRecord>, i: nat)
    ensures RecordAt(a + b, i) == if RecordAt(a, i).Some? then RecordAt(a, i) else RecordAt(b, i)
  {
    if a == [] {
      assert a + b == b;
    } else {
      assert (a + b)[1..] == a[1..] + b;
      RecordAtConcat(a[1..], b, i);
    }
  }

  lemma {:induction false} RecordAtNone(segs: seq<SegmentRecord>, i: nat)
    requires forall j :: 0 <= j < |segs| ==> !(segs[j].start <= i <= segs[j].end)
    ensures RecordAt(segs, i).None?
  {
    if segs != [] { RecordAtNone(segs[1..], i); }
  }

  /** Segment ends grow along a valid manifest. */
  lemma {:induction false} EndsGrow(id: Identity, m: Manifest, i: nat, j: nat)
    requires ValidManifest(id, m) && i <= j <= |m.segments|
    ensures TipBefore(m, i).index + (j - i) <= TipBefore(m, j).index
    decreases j
  {
    if i < j {
      EndsGrow(id, m, i, j - 1);
      assert RecordOk(id, m, j - 1);
    }
  }

  /** Every index between the base and the tip of a valid manifest is covered by exactly the record
      that `RecordAt` finds. */
  lemma {:induction false} ValidManifestCovers(id: Identity, m: Manifest, i: nat)
    requires ValidManifest(id, m) && BaseTip(m.base).index < i <= m.tip.index
    ensures RecordAt(m.segments, i).Some?
    ensures RecordAt(m.segments, i).value in m.segments
    ensures RecordAt(m.segments, i).value.start <= i <= RecordAt(m.segments, i).value.end
  {
    var j := 0;
    while TipBefore(m, j + 1).index < i
      invariant j < |m.segments| && TipBefore(m, j).index < i
      decreases |m.segments| - j
    {
      j := j + 1;
    }
    assert RecordOk(id, m, j);
    assert m.segments == m.segments[..j] + m.segments[j..];
    RecordAtConcat(m.segments[..j], m.segments[j..], i);
    forall k | 0 <= k < j ensures !(m.segments[..j][k].start <= i <= m.segments[..j][k].end) {
      EndsGrow(id, m, k + 1, j);
    }
    RecordAtNone(m.segments[..j], i);
  }

  /** `later` tells the same story as `earlier`, possibly further and from a later base: its tip is not
      lower, and every index both cover is covered by the same record, hence by the same object. */
  ghost predicate Extends(earlier: Manifest, later: Manifest) {
    && later.identity == earlier.identity
    && earlier.format <= later.format
    && BaseTip(earlier.base).index <= BaseTip(later.base).index
    && earlier.tip.index <= later.tip.index
    && (earlier.tip.index == later.tip.index ==> earlier.tip == later.tip)
    && (BaseTip(earlier.base).index == BaseTip(later.base).index ==> earlier.base == later.base)
    && (forall i: nat :: BaseTip(later.base).index < i <= earlier.tip.index ==>
          RecordAt(later.segments, i) == RecordAt(earlier.segments, i))
  }

  lemma ExtendsTransitive(a: Manifest, b: Manifest, c: Manifest)
    requires Extends(a, b) && Extends(b, c)
    ensures Extends(a, c)
  {
    forall i: nat | BaseTip(c.base).index < i <= a.tip.index
      ensures RecordAt(c.segments, i) == RecordAt(a.segments, i)
    {
      assert RecordAt(b.segments, i) == RecordAt(a.segments, i);
    }
  }

  // ---------------------------------------------------------------- append

  function RecordOf(w: World, id: Identity, es: seq<Entry>): SegmentRecord
    requires es != []
  {
    var first, last := es[0], es[|es| - 1];
    SegmentRecord(SEGMENT_FORMAT, first.index, last.index, first.prev, last.hash,
                  SegmentKey(id, first.index, last.index), w.sha(SegmentBlob(es)), w.size(SegmentBlob(es)))
  }

  function AppendRecord(m: Manifest, r: SegmentRecord): Manifest {
    m.(tip := Tip(r.end, r.lastHash), segments := m.segments + [r])
  }

  /** Appending a chained batch yields a valid manifest that extends the old one; the only rejection
      left to the final validation is a batch that ends at the last representable index. */
  lemma AppendExtends(w: World, id: Identity, m: Manifest, es: seq<Entry>)
    requires ValidManifest(id, m)
    requires es != [] && Chained(w, id, es, m.tip) && w.size(SegmentBlob(es)) != 0
    ensures var next := AppendRecord(m, RecordOf(w, id, es));
            && (ValidManifest(id, next) <==> es[|es| - 1].index < MAX_U64)
            && Extends(m, next)
            && next.tip == Tip(m.tip.index + |es|, es[|es| - 1].hash)
  {
    var r := RecordOf(w, id, es);
    var next := AppendRecord(m, r);
    var n := |m.segments|;
    assert LinkOk(w, id, es, m.tip, 0) && LinkOk(w, id, es, m.tip, |es| - 1);
    assert TipBefore(next, n) == m.tip;
    forall i | 0 <= i < n ensures RecordOk(id, next, i) { assert RecordOk(id, m, i); }
    if es[|es| - 1].index < MAX_U64 {
      assert RecordOk(id, next, n);
    } else {
      assert !RecordOk(id, next, n);
    }
    forall i: nat | BaseTip(m.base).index < i <= m.tip.index
      ensures RecordAt(next.segments, i) == RecordAt(m.segments, i)
    {
      RecordAtConcat(m.segments, [r], i);
      ValidManifestCovers(id, m, i);
    }
  }

  // ---------------------------------------------------------------- migrate

  function Migrate(m: Manifest): Manifest {
    m.(format := CHECKPOINT_FORMAT)
  }

  /** Migrating a manifest of the first format gives a valid one of the current format that extends it and restores
      to the same over any store. */
  lemma MigratePreserves(w: World, store: Store, id: Identity, m: Manifest)
    requires ValidManifest(id, m)
    ensures ValidManifest(id, Migrate(m)) && Migrate(m).format == CHECKPOINT_FORMAT && Extends(m, Migrate(m))
    ensures Restore(w, store, id, Migrate(m)) == Restore(w, store, id, m)
  {
    assert forall i :: 0 <= i <= |m.segments| ==> TipBefore(Migrate(m), i) == TipBefore(m, i);
    forall i | 0 <= i < |m.segments| ensures RecordOk(id, Migrate(m), i) { assert RecordOk(id, m, i); }
  }

  // ---------------------------------------------------------------- compact

  /** The first record that ends exactly at an index. */
  function BoundaryAt(segs: seq<SegmentRecord>, index: nat): Option<SegmentRecord> {
    if segs == [] then None
    else if segs[0].end == index then Some(segs[0])
    else BoundaryAt(segs[1..], index)
  }

  function RetainAfter(segs: seq<SegmentRecord>, index: nat): seq<SegmentRecord> {
    if segs == [] then []
    else (if segs[0].start > index then [segs[0]] else []) + RetainAfter(segs[1..], index)
  }

  datatype Compaction = Unchanged | Replaced(manifest: Manifest)

  /** One attempt of snapshot publication against a loaded manifest. */
  function Compact(m: Manifest, s: SnapshotBase): Result<Compaction> {
    var current, proposed := BaseTip(m.base), s.anchor.compacted;
    if current.index == proposed.index then
      if m.base == Snapshot(s) then Ok(Unchanged) else Err(BaseConflict)
    else if current.index > proposed.index then Err(BaseRegression)
    else match BoundaryAt(m.segments, proposed.index)
         case None => Err(InvalidCheckpoint)
         case Some(boundary) =>
           if boundary.lastHash != proposed.hash then Err(BaseConflict)
           else Ok(Replaced(m.(base := Snapshot(s), segments := RetainAfter(m.segments, proposed.index))))
  }

  lemma {:induction false} RetainAfterIsSuffix(segs: seq<SegmentRecord>, index: nat, j: nat)
    requires j <= |segs|
    requires forall k :: 0 <= k < j ==> segs[k].start <= index
    requires forall k :: j <= k < |segs| ==> segs[k].start > index
    ensures RetainAfter(segs, index) == segs[j..]
  {
    if segs != [] {
      if j > 0 {
        RetainAfterIsSuffix(segs[1..], index, j - 1);
      } else {
        RetainAfterIsSuffix(segs[1..], index, 0);
        assert segs == [segs[0]] + segs[1..];
      }
    }
  }

  lemma {:induction false} BoundaryPosition(segs: seq<SegmentRecord>, index: nat) returns (j: nat)
    requires BoundaryAt(segs, index).Some?
    ensures j < |segs| && segs[j] == BoundaryAt(segs, index).value && segs[j].end == index
  {
    if segs[0].end == index {
      j := 0;
    } else {
      var k := BoundaryPosition(segs[1..], index);
      j := k + 1;
    }
  }

  /** A successful compaction cuts the segment list at one boundary: what it keeps is exactly what
      followed the boundary record, and the boundary's end is the new base. */
  lemma CompactCuts(id: Identity, m: Manifest, s: SnapshotBase) returns (j: nat)
    requires ValidManifest(id, m) && Compact(m, s).Ok? && Compact(m, s).value.Replaced?
    ensures 0 < j <= |m.segments|
    ensures TipBefore(m, j) == s.anchor.compacted
    ensures Compact(m, s).value.manifest.segments == m.segments[j..]
  {
    var index := s.anchor.compacted.index;
    var b := BoundaryPosition(m.segments, index);
    j := b + 1;
    forall k | 0 <= k < j ensures m.segments[k].start <= index {
      assert RecordOk(id, m, k);
      EndsGrow(id, m, k + 1, j);
    }
    forall k | j <= k < |m.segments| ensures m.segments[k].start > index {
      assert RecordOk(id, m, k);
      EndsGrow(id, m, j, k);
    }
    RetainAfterIsSuffix(m.segments, index, j);
  }

  lemma {:induction false} BoundaryExactly(segs: seq<SegmentRecord>, index: nat)
    ensures BoundaryAt(segs, index).Some? <==> exists i :: 0 <= i < |segs| && segs[i].end == index
  {
    if segs != [] && segs[0].end != index {
      BoundaryExactly(segs[1..], index);
      if i :| 0 <= i < |segs| && segs[i].end == index { assert segs[1..][i - 1].end == index; }
    }
  }

  lemma LaterEndsLater(id: Identity, m: Manifest, i: nat, j: nat)
    requires ValidManifest(id, m) && i < j < |m.segments|
    ensures m.segments[i].end < m.segments[j].end
  {
    EndsGrow(id, m, i + 1, j);
    assert RecordOk(id, m, j);
  }

  /** The boundary record of an index is the one segment that ends there. */
  lemma BoundaryIsTheOne(id: Identity, m: Manifest, index: nat, i: nat)
    requires ValidManifest(id, m) && i < |m.segments| && m.segments[i].end == index
    ensures BoundaryAt(m.segments, index) == Some(m.segments[i])
  {
    BoundaryExactly(m.segments, index);
    var j := BoundaryPosition(m.segments, index);
    if i < j { LaterEndsLater(id, m, i, j); }
    if j < i { LaterEndsLater(id, m, j, i); }
  }

  /** The snapshot's anchor is a tip the manifest has passed through: a segment ends exactly there. */
  predicate PassedThrough(m: Manifest, at: Tip) {
    exists i :: 0 <= i < |m.segments| && m.segments[i].end == at.index && m.segments[i].lastHash == at.hash
  }

  /** When a snapshot takes effect on a manifest.  It already has exactly if it is the base.  It replaces the base
      exactly if it lies above it and the manifest has passed through its anchor.  A snapshot below the base is
      a regression; one at the base, or at the end of a segment with another hash, a conflict; and one that is
      at no segment's end is invalid. */
  lemma CompactExactly(id: Identity, m: Manifest, s: SnapshotBase)
    requires ValidManifest(id, m)
    ensures var r, base, at := Compact(m, s), BaseTip(m.base), s.anchor.compacted;
            && (r == Ok(Unchanged) <==> m.base == Snapshot(s))
            && (r.Ok? && r.value.Replaced? <==> base.index < at.index && PassedThrough(m, at))
            && (r == Err(BaseRegression) <==> at.index < base.index)
            && (r == Err(BaseConflict) <==>
                  || (at.index == base.index && m.base != Snapshot(s))
                  || (base.index < at.index && BoundaryAt(m.segments, at.index).Some? && !PassedThrough(m, at)))
            && (r == Err(InvalidCheckpoint) <==>
                  base.index < at.index && forall i :: 0 <= i < |m.segments| ==> m.segments[i].end != at.index)
  {
    var at := s.anchor.compacted;
    BoundaryExactly(m.segments, at.index);
    if i :| 0 <= i < |m.segments| && m.segments[i].end == at.index && m.segments[i].lastHash == at.hash {
      BoundaryIsTheOne(id, m, at.index, i);
    }
    if BoundaryAt(m.segments, at.index).Some? {
      var j := BoundaryPosition(m.segments, at.index);
    }
  }

  /** Compaction keeps the manifest valid, keeps the tip, and extends the old manifest. */
  lemma CompactExtends(id: Identity, m: Manifest, s: SnapshotBase)
    requires ValidManifest(id, m) && ValidSnapshotBase(id, s)
    requires m.format == CHECKPOINT_FORMAT
    requires Compact(m, s).Ok? && Compact(m, s).value.Replaced?
    ensures var next := Compact(m, s).value.manifest;
            ValidManifest(id, next) && Extends(m, next) && next.tip == m.tip
  {
    var next := Compact(m, s).value.manifest;
    var j := CompactCuts(id, m, s);
    EndsGrow(id, m, j, |m.segments|);
    assert RecordOk(id, m, j - 1);
    assert forall i :: 0 <= i <= |next.segments| ==> TipBefore(next, i) == TipBefore(m, j + i);
    forall i | 0 <= i < |next.segments| ensures RecordOk(id, next, i) {
      assert RecordOk(id, m, j + i);
    }
    forall i: nat | BaseTip(next.base).index < i <= m.tip.index
      ensures RecordAt(next.segments, i) == RecordAt(m.segments, i)
    {
      assert m.segments == m.segments[..j] + m.segments[j..];
      RecordAtConcat(m.segments[..j], m.segments[j..], i);
      forall k | 0 <= k < j ensures !(m.segments[..j][k].start <= i <= m.segments[..j][k].end) {
        EndsGrow(id, m, k + 1, j);
      }
      RecordAtNone(m.segments[..j], i);
    }
  }

  /** A restored list of segments splits where the segment list is split. */
  lemma {:induction false} RestoreSegmentsSplit(w: World, store: Store, id: Identity,
                                                a: seq<SegmentRecord>, b: seq<SegmentRecord>, tip: Tip)
    requires RestoreSegments(w, store, id, a + b, tip).Ok?
    ensures RestoreSegments(w, store, id, a, tip).Ok?
    ensures var front := RestoreSegments(w, store, id, a, tip).value;
            && RestoreSegments(w, store, id, b, EndTip(front, tip)).Ok?
            && RestoreSegments(w, store, id, a + b, tip).value
               == front + RestoreSegments(w, store, id, b, EndTip(front, tip)).value
  {
    if a == [] {
      assert a + b == b;
      assert [] + RestoreSegments(w, store, id, b, tip).value == RestoreSegments(w, store, id, b, tip).value;
    } else {
      assert (a + b)[0] == a[0] && (a + b)[1..] == a[1..] + b;
      RestoreFirst(w, store, id, a + b, a[1..] + b, tip);
      RestoreFirst(w, store, id, a, a[1..], tip);
      var es := LoadSegment(w, store, id, a[0]).value;
      RestoreSegmentsSplit(w, store, id, a[1..], b, EndTip(es, tip));
      var rest := RestoreSegments(w, store, id, a[1..], EndTip(es, tip)).value;
      EndTipConcat(es, rest, tip);
      ConcatAssoc(es, rest, RestoreSegments(w, store, id, b, EndTip(es + rest, tip)).value);
    }
  }

  /** Restoring a list of segments is restoring the first, then the others from where it ends. */
  lemma RestoreFirst(w: World, store: Store, id: Identity, segs: seq<SegmentRecord>, rest: seq<SegmentRecord>, tip: Tip)
    requires segs != [] && segs[1..] == rest
    ensures var got := LoadSegment(w, store, id, segs[0]);
            && (RestoreSegments(w, store, id, segs, tip).Ok? <==>
                  && got.Ok? && Chained(w, id, got.value, tip)
                  && RestoreSegments(w, store, id, rest, EndTip(got.value, tip)).Ok?)
            && (RestoreSegments(w, store, id, segs, tip).Ok? ==>
                  RestoreSegments(w, store, id, segs, tip).value
                  == got.value + RestoreSegments(w, store, id, rest, EndTip(got.value, tip)).value)
  {
  }

  lemma ConcatAssoc(a: seq<Entry>, b: seq<Entry>, c: seq<Entry>)
    ensures a + (b + c) == (a + b) + c
  {
  }

  lemma EndTipConcat(a: seq<Entry>, b: seq<Entry>, tip: Tip)
    ensures EndTip(a + b, tip) == EndTip(b, EndTip(a, tip))
  {
  }

  lemma {:induction false} RestoreSegmentsEnd(w: World, store: Store, id: Identity, m: Manifest, j: nat)
    requires ValidManifest(id, m) && j <= |m.segments|
    requires RestoreSegments(w, store, id, m.segments[..j], BaseTip(m.base)).Ok?
    ensures var es := RestoreSegments(w, store, id, m.segments[..j], BaseTip(m.base)).value;
            && EndTip(es, BaseTip(m.base)) == TipBefore(m, j)
            && |es| == TipBefore(m, j).index - BaseTip(m.base).index
            && Chained(w, id, es, BaseTip(m.base))
  {
    if j > 0 {
      var base := BaseTip(m.base);
      assert m.segments[..j] == m.segments[..j - 1] + [m.segments[j - 1]];
      RestoreSegmentsSplit(w, store, id, m.segments[..j - 1], [m.segments[j - 1]], base);
      RestoreSegmentsEnd(w, store, id, m, j - 1);
      var front := RestoreSegments(w, store, id, m.segments[..j - 1], base).value;
      var es := LoadSegment(w, store, id, m.segments[j - 1]).value;
      assert RestoreSegments(w, store, id, [m.segments[j - 1]][1..], EndTip(es, EndTip(front, base))) == Ok([]);
      assert es + [] == es;
      assert RecordOk(id, m, j - 1);
      ChainedConcat(w, id, front, es, base);
    }
  }

  /** A restored checkpoint is a hash chain from its base to the manifest's tip. */
  lemma RestoredIsChained(w: World, store: Store, id: Identity, m: Manifest)
    requires ValidManifest(id, m) && Restore(w, store, id, m).Ok?
    ensures var r := Restore(w, store, id, m).value;
            && Chained(w, id, r.suffix, BaseTip(m.base))
            && |r.suffix| == m.tip.index - BaseTip(m.base).index
            && r.tip == m.tip == EndTip(r.suffix, BaseTip(m.base))
  {
    assert m.segments[..|m.segments|] == m.segments;
    RestoreSegmentsEnd(w, store, id, m, |m.segments|);
  }

  /** Cutting a restorable manifest after its j-th segment leaves the rest restorable, to the rest. */
  lemma RestoreAfterCut(w: World, store: Store, id: Identity, m: Manifest, j: nat)
    requires ValidManifest(id, m) && j <= |m.segments|
    requires RestoreSegments(w, store, id, m.segments, BaseTip(m.base)).Ok?
    ensures var all := RestoreSegments(w, store, id, m.segments, BaseTip(m.base)).value;
            var k := TipBefore(m, j).index - BaseTip(m.base).index;
            && 0 <= k <= |all|
            && RestoreSegments(w, store, id, m.segments[j..], TipBefore(m, j)) == Ok(all[k..])
            && EndTip(all[k..], TipBefore(m, j)) == EndTip(all, BaseTip(m.base))
  {
    var base := BaseTip(m.base);
    assert m.segments == m.segments[..j] + m.segments[j..];
    RestoreSegmentsSplit(w, store, id, m.segments[..j], m.segments[j..], base);
    RestoreSegmentsEnd(w, store, id, m, j);
    var front := RestoreSegments(w, store, id, m.segments[..j], base).value;
    var rest := RestoreSegments(w, store, id, m.segments[j..], TipBefore(m, j)).value;
    EndsGrow(id, m, 0, j);
    assert (front + rest)[|front|..] == rest;
    assert EndTip(front + rest, base) == EndTip(rest, EndTip(front, base));
  }

  /** Compaction preserves meaning: after a snapshot at index k is published, restore yields that
      snapshot and exactly the entries after k that restore yielded before. */
  lemma CompactPreservesRestore(w: World, store: Store, id: Identity, m: Manifest, s: SnapshotBase, bytes: Bytes)
    requires ValidManifest(id, m)
    requires Compact(m, s).Ok? && Compact(m, s).value.Replaced?
    requires Restore(w, store, id, m).Ok?
    requires Download(w, store, s.key, s.size, s.digest) == Ok(SnapshotBlob(bytes))
    ensures var before := Restore(w, store, id, m).value;
            var k := s.anchor.compacted.index - BaseTip(m.base).index;
            && 0 < k <= |before.suffix|
            && Restore(w, store, id, Compact(m, s).value.manifest)
               == Ok(Restored(Some(bytes), before.suffix[k..], m.tip))
  {
    var j := CompactCuts(id, m, s);
    CutRestores(w, store, id, m, j, Snapshot(s), bytes);
  }

  /** A restorable manifest cut after its j-th segment, behind a snapshot at that point. */
  lemma CutRestores(w: World, store: Store, id: Identity, m: Manifest, j: nat, base: Base, bytes: Bytes)
    requires ValidManifest(id, m) && 0 < j <= |m.segments| && Restore(w, store, id, m).Ok?
    requires BaseTip(base) == TipBefore(m, j) && RestoreBase(w, store, base) == Ok(Some(bytes))
    ensures var before := Restore(w, store, id, m).value;
            var k := TipBefore(m, j).index - BaseTip(m.base).index;
            && 0 < k <= |before.suffix|
            && Restore(w, store, id, m.(base := base, segments := m.segments[j..]))
               == Ok(Restored(Some(bytes), before.suffix[k..], m.tip))
  {
    RestoreAfterCut(w, store, id, m, j);
    EndsGrow(id, m, 0, j);
  }
}
