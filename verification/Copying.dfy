/**
 Copying a checkpoint to the next recovery generation: the copied manifest, the objects it needs, and why it
 restores to what the source restores to.  Objects are read one by one, at different moments; because every
 object is verified by its digest, what has been read is what the manifest restores to wherever its objects
 are intact.
 */
module Copying {
  import opened Model
  import opened Checkpoint

  // ---------------------------------------------------------------- the copied manifest

  function CopyBase(target: Identity, b: Base): Base {
    match b
    case Genesis => Genesis
    case Snapshot(s) =>
      var a := s.anchor;
      var anchor := Anchor(ANCHOR_FORMAT, a.cluster, a.epoch, a.state.config, a.state, target.generation,
                           a.compacted, a.digest, a.size, a.fingerprint);
      Snapshot(SnapshotBase(anchor, SnapshotKeyOf(target, anchor), s.digest, s.size, s.fingerprint))
  }

  function CopyRecord(target: Identity, r: SegmentRecord): SegmentRecord {
    r.(key := SegmentKey(target, r.start, r.end))
  }

  function CopyRecords(target: Identity, segs: seq<SegmentRecord>): (r: seq<SegmentRecord>)
    ensures |r| == |segs| && forall i :: 0 <= i < |segs| ==> r[i] == CopyRecord(target, segs[i])
  {
    seq(|segs|, i requires 0 <= i < |segs| => CopyRecord(target, segs[i]))
  }

  /** The manifest of the target generation. */
  function CopyOf(target: Identity, m: Manifest): Manifest {
    Manifest(CHECKPOINT_FORMAT, target, CopyBase(target, m.base), CopyRecords(target, m.segments), m.tip)
  }

  /** An object to be copied: where from, where to, and how it is verified. */
  datatype Parcel = Parcel(from: Key, to: Key, size: nat, sha: Hash)

  /** The objects a manifest references, base first, with their places in the target. */
  function Parcels(target: Identity, m: Manifest): seq<Parcel> {
    (match m.base
     case Genesis => []
     case Snapshot(s) => [Parcel(s.key, CopyBase(target, m.base).snapshot.key, s.size, s.digest)])
    + seq(|m.segments|, i requires 0 <= i < |m.segments| =>
        Parcel(m.segments[i].key, SegmentKey(target, m.segments[i].start, m.segments[i].end), m.segments[i].size,
               m.segments[i].sha))
  }

  predicate SameLineage(source: Identity, target: Identity) {
    && source.cluster == target.cluster
    && source.epoch == target.epoch
    && source.config == target.config
    && source.generation + 1 == target.generation <= MAX_U64
  }

  /** Restoring copied records from a store that holds verified copies yields the same entries. */
  lemma {:induction false} CopiedSegmentsRestore(w: World, store: Store, after: Store, source: Identity,
                                                 target: Identity,
                                                 segs: seq<SegmentRecord>, copies: seq<SegmentRecord>, tip: Tip)
    requires SameLineage(source, target) && |copies| == |segs|
    requires RestoreSegments(w, store, source, segs, tip).Ok?
    requires forall i :: 0 <= i < |segs| ==> copies[i] == CopyRecord(target, segs[i])
    requires forall i :: 0 <= i < |segs| ==>
               Download(w, after, copies[i].key, copies[i].size, copies[i].sha)
               == Download(w, store, segs[i].key, segs[i].size, segs[i].sha)
    ensures RestoreSegments(w, after, target, copies, tip) == RestoreSegments(w, store, source, segs, tip)
  {
    if segs != [] {
      var es := LoadSegment(w, store, source, segs[0]).value;
      assert LoadSegment(w, after, target, copies[0]) == Ok(es);
      forall i | 0 <= i < |es| ensures LinkOk(w, target, es, tip, i) {
        assert LinkOk(w, source, es, tip, i);
      }
      CopiedSegmentsRestore(w, store, after, source, target, segs[1..], copies[1..], EndTip(es, tip));
    }
  }

  /** The copy of a valid manifest is valid for the target. */
  lemma CopyIsValid(source: Identity, target: Identity, m: Manifest)
    requires SameLineage(source, target) && ValidManifest(source, m)
    ensures ValidManifest(target, CopyOf(target, m))
  {
    forall i | 0 <= i < |m.segments| ensures RecordOk(target, CopyOf(target, m), i) {
      assert RecordOk(source, m, i);
    }
  }

  // ---------------------------------------------------------------- parcels

  ghost predicate ParcelsHeld(w: World, store: Store, xs: seq<Parcel>, n: nat) {
    n <= |xs| && forall i :: 0 <= i < n ==> Intact(w, store, xs[i].to, xs[i].size, xs[i].sha)
  }

  /** What the parcels hold is what the copy references. */
  lemma ParcelsAreRefs(w: World, store: Store, target: Identity, m: Manifest)
    requires ParcelsHeld(w, store, Parcels(target, m), |Parcels(target, m)|)
    ensures RefsHold(w, store, CopyOf(target, m))
  {
    var xs, copy := Parcels(target, m), CopyOf(target, m);
    var k := if m.base.Snapshot? then 1 else 0;
    if m.base.Snapshot? { assert Intact(w, store, xs[0].to, xs[0].size, xs[0].sha); }
    forall i | 0 <= i < |copy.segments|
      ensures Intact(w, store, copy.segments[i].key, copy.segments[i].size, copy.segments[i].sha)
    {
      assert Intact(w, store, xs[k + i].to, xs[k + i].size, xs[k + i].sha);
    }
  }

  lemma ParcelKey(target: Identity, m: Manifest, i: nat)
    requires i < |Parcels(target, m)|
    ensures !Parcels(target, m)[i].to.ManifestKey?
  {
  }

  // ---------------------------------------------------------------- what a manifest restores to

  /** Wherever the manifest's objects are intact, it restores to this. */
  ghost predicate RestoresTo(w: World, id: Identity, m: Manifest, r: Restored) {
    forall store: Store :: RefsHold(w, store, m) ==> Restore(w, store, id, m) == Ok(r)
  }

  /** Wherever the manifest's objects are intact, its base and first n segments give this. */
  ghost predicate ReadsTo(w: World, id: Identity, m: Manifest, n: nat, snapshot: Option<Bytes>, es: seq<Entry>) {
    n <= |m.segments| &&
    forall store: Store :: RefsHold(w, store, m) ==>
      && RestoreBase(w, store, m.base) == Ok(snapshot)
      && RestoreSegments(w, store, id, m.segments[..n], BaseTip(m.base)) == Ok(es)
  }

  lemma SameObject(w: World, a: Store, b: Store, key: Key, size: nat, sha: Hash)
    requires CollisionFreeDigest(w) && Intact(w, a, key, size, sha) && Intact(w, b, key, size, sha)
    ensures Download(w, a, key, size, sha) == Download(w, b, key, size, sha)
  {
  }

  lemma BaseReads(w: World, store0: Store, id: Identity, m: Manifest)
    requires CollisionFreeDigest(w) && RestoreBase(w, store0, m.base).Ok?
    ensures ReadsTo(w, id, m, 0, RestoreBase(w, store0, m.base).value, [])
  {
    forall store: Store | RefsHold(w, store, m)
      ensures RestoreBase(w, store, m.base) == RestoreBase(w, store0, m.base)
    {
      if m.base.Snapshot? {
        var s := m.base.snapshot;
        SameObject(w, store, store0, s.key, s.size, s.digest);
      }
    }
  }

  lemma SegmentReads(w: World, store0: Store, id: Identity, m: Manifest, n: nat, snapshot: Option<Bytes>,
                     es: seq<Entry>)
    requires CollisionFreeDigest(w) && ReadsTo(w, id, m, n, snapshot, es) && n < |m.segments|
    requires LoadSegment(w, store0, id, m.segments[n]).Ok?
    requires Chained(w, id, LoadSegment(w, store0, id, m.segments[n]).value, EndTip(es, BaseTip(m.base)))
    ensures ReadsTo(w, id, m, n + 1, snapshot, es + LoadSegment(w, store0, id, m.segments[n]).value)
  {
    var r := m.segments[n];
    forall store: Store | RefsHold(w, store, m)
      ensures RestoreSegments(w, store, id, m.segments[..n + 1], BaseTip(m.base))
              == Ok(es + LoadSegment(w, store0, id, r).value)
    {
      assert Intact(w, store, r.key, r.size, r.sha);
      SameObject(w, store, store0, r.key, r.size, r.sha);
      RestoreSegmentsStep(w, store, id, m.segments, n, BaseTip(m.base));
    }
  }

  lemma FinishReads(w: World, id: Identity, m: Manifest, snapshot: Option<Bytes>, es: seq<Entry>)
    requires ReadsTo(w, id, m, |m.segments|, snapshot, es) && EndTip(es, BaseTip(m.base)) == m.tip
    ensures RestoresTo(w, id, m, Restored(snapshot, es, m.tip))
  {
    assert m.segments[..|m.segments|] == m.segments;
  }

  /** Wherever the manifest's objects are intact, it does not restore. */
  ghost predicate NeverRestores(w: World, id: Identity, m: Manifest) {
    forall store: Store :: RefsHold(w, store, m) ==> Restore(w, store, id, m).Err?
  }

  lemma BaseNeverReads(w: World, store0: Store, id: Identity, m: Manifest)
    requires CollisionFreeDigest(w) && RestoreBase(w, store0, m.base).Err?
    ensures !RefsHold(w, store0, m) || NeverRestores(w, id, m)
  {
    if RefsHold(w, store0, m) {
      var s := m.base.snapshot;
      forall store: Store | RefsHold(w, store, m) ensures Restore(w, store, id, m).Err? {
        SameObject(w, store, store0, s.key, s.size, s.digest);
      }
    }
  }

  lemma SegmentNeverReads(w: World, store0: Store, id: Identity, m: Manifest, n: nat, snapshot: Option<Bytes>,
                          es: seq<Entry>)
    requires CollisionFreeDigest(w) && ReadsTo(w, id, m, n, snapshot, es) && n < |m.segments|
    requires var got := LoadSegment(w, store0, id, m.segments[n]);
             got.Err? || !Chained(w, id, got.value, EndTip(es, BaseTip(m.base)))
    ensures !RefsHold(w, store0, m) || NeverRestores(w, id, m)
  {
    var r := m.segments[n];
    if RefsHold(w, store0, m) {
      forall store: Store | RefsHold(w, store, m) ensures Restore(w, store, id, m).Err? {
        assert Intact(w, store, r.key, r.size, r.sha) && Intact(w, store0, r.key, r.size, r.sha);
        SameObject(w, store, store0, r.key, r.size, r.sha);
        RestoreSegmentsStep(w, store, id, m.segments, n, BaseTip(m.base));
      }
    }
  }

  lemma TipNeverMet(w: World, id: Identity, m: Manifest, snapshot: Option<Bytes>, es: seq<Entry>)
    requires ReadsTo(w, id, m, |m.segments|, snapshot, es) && EndTip(es, BaseTip(m.base)) != m.tip
    ensures NeverRestores(w, id, m)
  {
    assert m.segments[..|m.segments|] == m.segments;
  }

  // ---------------------------------------------------------------- the copy restores as its source

  function Rehome(k: Key, id: Identity): Key {
    k.(id := id)
  }

  /** The target's objects, seen as objects of the source. */
  ghost function Mirror(store: Store, source: Identity, target: Identity): Store {
    var homes := set k | k in store && k.id == target :: Rehome(k, source);
    assert forall k :: k in homes ==> Rehome(k, target) in store;
    map k | k in homes :: store[Rehome(k, target)]
  }

  lemma MirrorHas(w: World, store: Store, source: Identity, target: Identity, key: Key, size: nat, sha: Hash)
    requires key.id == source && Intact(w, store, Rehome(key, target), size, sha)
    ensures Download(w, Mirror(store, source, target), key, size, sha)
            == Download(w, store, Rehome(key, target), size, sha)
  {
    assert Rehome(Rehome(key, target), source) == key;
    assert key in Mirror(store, source, target);
  }

  /** A copy's objects, mirrored, are the objects of the manifest that was copied. */
  lemma MirrorRefs(w: World, store: Store, source: Identity, target: Identity, m: Manifest)
    requires ValidManifest(source, m) && RefsHold(w, store, CopyOf(target, m))
    ensures RefsHold(w, Mirror(store, source, target), m)
    ensures forall i :: 0 <= i < |m.segments| ==>
              var r, c := m.segments[i], CopyOf(target, m).segments[i];
              Download(w, store, c.key, c.size, c.sha)
              == Download(w, Mirror(store, source, target), r.key, r.size, r.sha)
    ensures RestoreBase(w, store, CopyOf(target, m).base) == RestoreBase(w, Mirror(store, source, target), m.base)
  {
    var copy := CopyOf(target, m);
    forall i | 0 <= i < |m.segments|
      ensures Download(w, store, copy.segments[i].key, copy.segments[i].size, copy.segments[i].sha)
              == Download(w, Mirror(store, source, target), m.segments[i].key, m.segments[i].size, m.segments[i].sha)
      ensures Intact(w, Mirror(store, source, target), m.segments[i].key, m.segments[i].size, m.segments[i].sha)
    {
      var r := m.segments[i];
      assert RecordOk(source, m, i) && Rehome(r.key, target) == copy.segments[i].key;
      assert Intact(w, store, copy.segments[i].key, copy.segments[i].size, copy.segments[i].sha);
      MirrorHas(w, store, source, target, r.key, r.size, r.sha);
    }
    if m.base.Snapshot? {
      var s := m.base.snapshot;
      assert Rehome(s.key, target) == copy.base.snapshot.key;
      MirrorHas(w, store, source, target, s.key, s.size, s.digest);
    }
  }

  /** Copying preserves meaning: the copy restores to whatever the source manifest restores to. */
  lemma CopyRestoresAsSource(w: World, source: Identity, target: Identity, m: Manifest, r: Restored)
    requires SameLineage(source, target) && ValidManifest(source, m) && RestoresTo(w, source, m, r)
    ensures RestoresTo(w, target, CopyOf(target, m), r)
  {
    var copy := CopyOf(target, m);
    forall store: Store | RefsHold(w, store, copy) ensures Restore(w, store, target, copy) == Ok(r) {
      var mirror := Mirror(store, source, target);
      MirrorRefs(w, store, source, target, m);
      assert Restore(w, mirror, source, m) == Ok(r);
      CopiedSegmentsRestore(w, mirror, store, source, target, m.segments, copy.segments, BaseTip(m.base));
    }
  }
}
