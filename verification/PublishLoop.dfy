/**
 The publication loops, and the copy to a new recovery generation, over a store that others write to at any
 moment.  `trail` records every state the store has been in and who brought it about, so that a method can
 say what was stored at the moment of its own write.  Lease renewals, which only stop a call, are left to the
 state machine of module Archive.
 */
module PublishLoop {
  import opened Model
  import opened Checkpoint
  import opened Publication
  import opened Copying

  const MAX_ATTEMPTS: nat := 16

  /** The store after a write or a deletion, by the caller under study or by another. */
  datatype Moment = Moment(store: Store, own: bool)

  /** The manifest is what its version stands for. */
  predicate Current(store: Store, id: Identity, ld: Loaded) {
    ManifestKey(id) in store && store[ManifestKey(id)].version == ld.version ==> HasManifest(store, id, ld.manifest)
  }

  /** Objects older than the version are as they were. */
  ghost predicate OldOnes(before: Store, version: nat, after: Store) {
    forall k :: k in after && after[k].version < version ==> k in before && after[k] == before[k]
  }

  /** What a publication promises of the manifest it returns: it is valid, and either it was swapped in by
      this call and ends in the batch's last entry, or it already covered that entry. */
  ghost predicate Published(w: World, store: Store, id: Identity, m: Manifest, es: seq<Entry>)
    requires es != []
  {
    var last := es[|es| - 1];
    && ValidManifest(id, m)
    && (|| (HasManifest(store, id, m) && m.tip == Tip(last.index, last.hash))
        || CoversLast(w, store, id, m, es))
  }

  /** A published batch is acknowledged by the manifest, once the manifest restores. */
  lemma PublishedIsAcknowledged(w: World, store: Store, id: Identity, m: Manifest, es: seq<Entry>)
    requires es != [] && Published(w, store, id, m, es) && Restore(w, store, id, m).Ok?
    ensures Acknowledges(w, store, id, m, es)
  {
    if CoversLast(w, store, id, m, es) {
      CoveredBatchIsAcknowledged(w, store, id, m, es);
    } else {
      AppendedBatchIsAcknowledged(w, store, id, m, es);
    }
  }

  predicate SameAt(a: Store, b: Store, key: Key) {
    (key in a <==> key in b) && (key in a ==> b[key] == a[key])
  }

  /** From the n-th moment on, no write of this caller touches the key. */
  ghost predicate Untouched(trail: seq<Moment>, n: nat, key: Key) {
    forall i :: 1 <= n <= i < |trail| && trail[i].own ==> SameAt(trail[i - 1].store, trail[i].store, key)
  }

  /** The latest moment is this caller's one write to the manifest since the n-th, and it replaced `from`, which
      was stored until then. */
  ghost predicate SwappedIn(trail: seq<Moment>, n: nat, id: Identity, from: Manifest, to: Loaded) {
    var last := |trail| - 1;
    && 1 <= n <= last && trail[last].own
    && Untouched(trail[..last], n, ManifestKey(id))
    && HasManifest(trail[last - 1].store, id, from)
    && StoredAs(trail[last].store, id, to)
    && trail[last].store == trail[last - 1].store[ManifestKey(id) := trail[last].store[ManifestKey(id)]]
  }

  /** The object was in place and intact at some moment from the n-th on. */
  ghost predicate SeenIntact(w: World, trail: seq<Moment>, n: nat, x: Parcel) {
    exists j :: n <= j < |trail| && Intact(w, trail[j].store, x.to, x.size, x.sha)
  }

  ghost predicate AllSeen(w: World, trail: seq<Moment>, n: nat, xs: seq<Parcel>, k: nat) {
    k <= |xs| && forall i :: 0 <= i < k ==> SeenIntact(w, trail, n, xs[i])
  }

  lemma AllSeenStill(w: World, before: seq<Moment>, trail: seq<Moment>, n: nat, xs: seq<Parcel>, k: nat)
    requires before <= trail && AllSeen(w, before, n, xs, k)
    ensures AllSeen(w, trail, n, xs, k)
  {
    forall i | 0 <= i < k ensures SeenIntact(w, trail, n, xs[i]) { SeenStill(w, before, trail, n, xs[i]); }
  }

  lemma SeenNow(w: World, trail: seq<Moment>, n: nat, x: Parcel)
    requires n < |trail| && Intact(w, trail[|trail| - 1].store, x.to, x.size, x.sha)
    ensures SeenIntact(w, trail, n, x)
  {
  }

  lemma SeenStill(w: World, before: seq<Moment>, trail: seq<Moment>, n: nat, x: Parcel)
    requires before <= trail && SeenIntact(w, before, n, x)
    ensures SeenIntact(w, trail, n, x)
  {
    var j :| n <= j < |before| && Intact(w, before[j].store, x.to, x.size, x.sha);
    assert trail[j] == before[j];
  }

  lemma UntouchedSince(trail: seq<Moment>, before: seq<Moment>, n: nat, key: Key)
    requires before <= trail && 1 <= n <= |before| && Untouched(before, n, key) && Untouched(trail, |before|, key)
    ensures Untouched(trail, n, key)
  {
    forall i | 1 <= n <= i < |trail| && trail[i].own ensures SameAt(trail[i - 1].store, trail[i].store, key) {
      if i < |before| { assert before[i] == trail[i] && before[i - 1] == trail[i - 1]; }
    }
  }

  lemma SwappedSince(trail: seq<Moment>, before: seq<Moment>, n: nat, id: Identity, from: Manifest, to: Loaded)
    requires before <= trail && 1 <= n <= |before| && Untouched(before, n, ManifestKey(id))
    requires SwappedIn(trail, |before|, id, from, to)
    ensures SwappedIn(trail, n, id, from, to)
  {
    UntouchedSince(trail[..|trail| - 1], before, n, ManifestKey(id));
  }

  // ---------------------------------------------------------------- why a call fails

  /** At some moment from the n-th on the batch could not be placed against the manifest, for this reason. */
  ghost predicate Misplaced(w: World, trail: seq<Moment>, n: nat, id: Identity, m: Manifest, es: seq<Entry>, e: Error)
    requires es != []
  {
    exists j :: n <= j < |trail| && SuffixStart(w, trail[j].store, id, m, es) == Err(e)
  }

  /** At some moment from the n-th on another object was under the key. */
  ghost predicate Occupied(trail: seq<Moment>, n: nat, key: Key, blob: Blob) {
    exists j :: n <= j < |trail| && key in trail[j].store && trail[j].store[key].blob != blob
  }

  ghost predicate Readable(store: Store, id: Identity) {
    && ManifestKey(id) in store && store[ManifestKey(id)].blob.ManifestBlob?
    && ValidManifest(id, store[ManifestKey(id)].blob.manifest)
  }

  /** Why one attempt to publish fails before its swap: the batch is not a chain, or could not be placed, or another
      object has its segment's key, or the manifest would not be valid with it. */
  ghost predicate AttemptFails(w: World, trail: seq<Moment>, n: nat, id: Identity, m: Manifest, es: seq<Entry>,
                               e: Error)
    requires es != []
  {
    || !ValidPublication(w, id, es)
    || Misplaced(w, trail, n, id, m, es, e)
    || (e == AlreadyExists && exists k :: 0 <= k < |es| && OtherSegment(w, trail, n, id, es[k..]))
    || es[|es| - 1].index >= MAX_U64
    || exists k :: 0 <= k < |es| && w.size(SegmentBlob(es[k..])) == 0
  }

  ghost predicate OtherSegment(w: World, trail: seq<Moment>, n: nat, id: Identity, es: seq<Entry>) {
    es != [] && Occupied(trail, n, RecordOf(w, id, es).key, SegmentBlob(es))
  }

  /** The segment ends at the last representable index, or is an empty object. */
  predicate Unappendable(w: World, es: seq<Entry>)
    requires es != []
  {
    es[|es| - 1].index >= MAX_U64 || w.size(SegmentBlob(es)) == 0
  }

  /** The object of the manifest's last segment was in place and intact at some moment from the n-th on. */
  ghost predicate SegmentKept(w: World, trail: seq<Moment>, n: nat, m: Manifest) {
    m.segments != [] &&
    var r := m.segments[|m.segments| - 1];
    exists j :: n <= j < |trail| && Intact(w, trail[j].store, r.key, r.size, r.sha)
  }

  lemma SegmentKeptSince(w: World, trail: seq<Moment>, n: nat, later: nat, m: Manifest)
    requires n <= later && SegmentKept(w, trail, later, m)
    ensures SegmentKept(w, trail, n, m)
  {
  }

  lemma SegmentKeptStill(w: World, before: seq<Moment>, trail: seq<Moment>, n: nat, m: Manifest)
    requires before <= trail && SegmentKept(w, before, n, m)
    ensures SegmentKept(w, trail, n, m)
  {
    var r := m.segments[|m.segments| - 1];
    var j :| n <= j < |before| && Intact(w, before[j].store, r.key, r.size, r.sha);
    assert trail[j] == before[j];
  }

  /** The manifest the call started from, or one that was stored at some moment of it. */
  ghost predicate Known(trail: seq<Moment>, n: nat, id: Identity, start: Manifest, m: Manifest) {
    m == start || exists j :: n <= j < |trail| && HasManifest(trail[j].store, id, m)
  }

  /** How often the key changed from the n-th moment on. */
  ghost function Rewrites(trail: seq<Moment>, n: nat, key: Key): nat {
    if |trail| <= n + 1 then 0
    else Rewrites(trail[..|trail| - 1], n, key)
         + (if SameAt(trail[|trail| - 2].store, trail[|trail| - 1].store, key) then 0 else 1)
  }

  lemma {:induction false} RewritesGrow(before: seq<Moment>, trail: seq<Moment>, n: nat, key: Key)
    requires before <= trail && n < |before|
    ensures Rewrites(before, n, key) <= Rewrites(trail, n, key)
    ensures !SameAt(before[|before| - 1].store, trail[|trail| - 1].store, key) ==>
              Rewrites(before, n, key) < Rewrites(trail, n, key)
    decreases |trail|
  {
    if |before| < |trail| {
      assert before <= trail[..|trail| - 1];
      RewritesGrow(before, trail[..|trail| - 1], n, key);
    } else {
      assert before == trail;
    }
  }

  /** Why a publication fails. */
  datatype Cause =
    | Refused(m: Manifest)        // an attempt, against the manifest m
    | NoManifest(at: nat)         // a reload found no valid manifest, at that moment
    | Overtaken                   // others rewrote the manifest in all attempts but the first
    | Dishonest                   // a snapshot is not what it claims to be
    | ObjectGone(at: nat)         // its object was not intact, at that moment

  predicate During<T>(trail: seq<T>, n: nat, at: nat) {
    n <= at < |trail|
  }

  /** A publication fails because an attempt does, against the manifest it started from or one stored during the
      call, or for one of the other causes. */
  ghost predicate PublishFails(w: World, trail: seq<Moment>, n: nat, id: Identity, start: Manifest, es: seq<Entry>,
                               e: Error, why: Cause)
    requires es != []
  {
    match why
    case Refused(m) => Known(trail, n, id, start, m) && ValidManifest(id, m) && AttemptFails(w, trail, n, id, m, es, e)
    case NoManifest(at) => During(trail, n, at) && !Readable(trail[at].store, id)
    case Overtaken => e == Precondition && Rewrites(trail, n, ManifestKey(id)) >= MAX_ATTEMPTS - 1
    case _ => false
  }

  lemma KnownStill(before: seq<Moment>, trail: seq<Moment>, n: nat, id: Identity, start: Manifest, m: Manifest)
    requires before <= trail && Known(before, n, id, start, m)
    ensures Known(trail, n, id, start, m)
  {
    if m != start {
      var j :| n <= j < |before| && HasManifest(before[j].store, id, m);
      assert trail[j] == before[j];
    }
  }

  lemma SegmentEndsAttempt(w: World, trail: seq<Moment>, n: nat, id: Identity, m: Manifest, es: seq<Entry>, k: nat,
                           e: Error)
    requires k < |es|
    requires (e == AlreadyExists && OtherSegment(w, trail, n, id, es[k..])) || Unappendable(w, es[k..])
    ensures AttemptFails(w, trail, n, id, m, es, e)
  {
    assert es[k..][|es[k..]| - 1] == es[|es| - 1];
  }

  /** Why an attempt fails from a later moment on is why it fails from an earlier one on. */
  lemma AttemptFailsSince(w: World, trail: seq<Moment>, n: nat, later: nat, id: Identity, m: Manifest, es: seq<Entry>,
                          e: Error)
    requires n <= later && es != [] && AttemptFails(w, trail, later, id, m, es, e)
    ensures AttemptFails(w, trail, n, id, m, es, e)
  {
    if k :| 0 <= k < |es| && e == AlreadyExists && OtherSegment(w, trail, later, id, es[k..]) {
      assert OtherSegment(w, trail, n, id, es[k..]);
    }
  }

  /** A reload after a lost swap: what it found is stored now, and if what was lost had been stored at the
      beginning, the key has changed meanwhile. */
  ghost predicate Reloaded(before: seq<Moment>, trail: seq<Moment>, n: nat, id: Identity, start: Manifest, lost: Loaded,
                           found: Loaded)
    requires before != [] && trail != []
  {
    && ValidManifest(id, found.manifest) && StoredAs(trail[|trail| - 1].store, id, found)
    && Known(trail, n, id, start, found.manifest)
    && Rewrites(before, n, ManifestKey(id)) + (if StoredAs(before[|before| - 1].store, id, lost) then 1 else 0)
       <= Rewrites(trail, n, ManifestKey(id))
  }

  lemma AttemptEndsCall(w: World, before: seq<Moment>, trail: seq<Moment>, n: nat, id: Identity, start: Manifest,
                        m: Manifest, es: seq<Entry>, e: Error)
    requires before <= trail && n < |before| && es != [] && ValidManifest(id, m) && Known(before, n, id, start, m)
    requires AttemptFails(w, trail, |before| - 1, id, m, es, e)
    ensures PublishFails(w, trail, n, id, start, es, e, Refused(m))
  {
    KnownStill(before, trail, n, id, start, m);
    AttemptFailsSince(w, trail, n, |before| - 1, id, m, es, e);
  }

  /** At some moment from the n-th on the object was not in place and intact. */
  ghost predicate Missing(w: World, trail: seq<Moment>, n: nat, key: Key, size: nat, sha: Hash) {
    exists j :: n <= j < |trail| && !Intact(w, trail[j].store, key, size, sha)
  }

  /** The snapshot's object was in place and intact at some moment from the n-th on. */
  ghost predicate SnapshotSeen(w: World, trail: seq<Moment>, n: nat, s: SnapshotBase) {
    exists j :: n <= j < |trail| && Intact(w, trail[j].store, s.key, s.size, s.digest)
  }

  lemma SnapshotSeenStill(w: World, before: seq<Moment>, trail: seq<Moment>, n: nat, s: SnapshotBase)
    requires before <= trail && SnapshotSeen(w, before, n, s)
    ensures SnapshotSeen(w, trail, n, s)
  {
    var j :| n <= j < |before| && Intact(w, before[j].store, s.key, s.size, s.digest);
    assert trail[j] == before[j];
  }

  /** The snapshot is what it claims to be. */
  predicate Honest(w: World, id: Identity, s: SnapshotBase, bytes: Bytes) {
    ValidSnapshotBase(id, s) && s.digest == w.sha(SnapshotBlob(bytes)) && s.size == w.size(SnapshotBlob(bytes))
  }

  /** A snapshot publication fails because the snapshot is not what it claims to be, its object was not intact, it
      does not fit a manifest the call worked from, or for one of the other causes. */
  ghost predicate SnapshotFails(w: World, trail: seq<Moment>, n: nat, id: Identity, start: Manifest, s: SnapshotBase,
                                bytes: Bytes, e: Error, why: Cause)
  {
    match why
    case Refused(m) =>
      && Known(trail, n, id, start, m) && ValidManifest(id, m)
      && (Compact(m, s) == Err(e) || m.format != CHECKPOINT_FORMAT)
    case NoManifest(at) => During(trail, n, at) && !Readable(trail[at].store, id)
    case Overtaken => e == Precondition && Rewrites(trail, n, ManifestKey(id)) >= MAX_ATTEMPTS - 1
    case Dishonest => !Honest(w, id, s, bytes)
    case ObjectGone(at) => During(trail, n, at) && !Intact(w, trail[at].store, s.key, s.size, s.digest)
  }

  /** Why a restore fails: some object was not intact at some moment, or the manifest restores nowhere. */
  ghost predicate RestoreFails(w: World, trail: seq<Moment>, n: nat, id: Identity, m: Manifest) {
    NeverRestores(w, id, m) || exists j :: n <= j < |trail| && !RefsHold(w, trail[j].store, m)
  }

  /** Why copying an object fails: the source's, or what is under its key in the target, was not intact at some
      moment. */
  ghost predicate ObjectFails(w: World, trail: seq<Moment>, n: nat, x: Parcel) {
    Missing(w, trail, n, x.from, x.size, x.sha) || Missing(w, trail, n, x.to, x.size, x.sha)
  }

  lemma ObjectFailsSince(w: World, trail: seq<Moment>, n: nat, later: nat, x: Parcel)
    requires n <= later && ObjectFails(w, trail, later, x)
    ensures ObjectFails(w, trail, n, x)
  {
  }

  /** Why a generation cannot be rolled; m is the source manifest worked from, stored at the moment `at`. */
  datatype RollCause =
    | NotNext                                           // the target is not the next of the source's lineage
    | NoSource(at: nat)                                 // the source has no valid manifest
    | OldSource(at: nat, m: Manifest)                   // it is of the old format
    | Unrestorable(at: nat, m: Manifest)                // it could not be restored
    | Uncopied(at: nat, m: Manifest, i: nat)            // its i-th object could not be copied
    | TargetTaken(at: nat, m: Manifest, taken: nat)     // another manifest was in the target
    | SourceMoved(at: nat, m: Manifest)                 // the source was rewritten

  predicate Sourced(trail: seq<Moment>, n: nat, source: Identity, at: nat, m: Manifest) {
    During(trail, n, at) && HasManifest(trail[at].store, source, m)
  }

  predicate TakenAt(trail: seq<Moment>, n: nat, target: Identity, copy: Manifest, at: nat) {
    && During(trail, n, at) && ManifestKey(target) in trail[at].store
    && trail[at].store[ManifestKey(target)].blob != ManifestBlob(copy)
  }

  ghost predicate RollFails(w: World, trail: seq<Moment>, n: nat, source: Identity, target: Identity, why: RollCause) {
    match why
    case NotNext => !SameLineage(source, target)
    case NoSource(at) => During(trail, n, at) && !Readable(trail[at].store, source)
    case OldSource(at, m) => Sourced(trail, n, source, at, m) && m.format != CHECKPOINT_FORMAT
    case Unrestorable(at, m) => Sourced(trail, n, source, at, m) && RestoreFails(w, trail, n, source, m)
    case Uncopied(at, m, i) =>
      Sourced(trail, n, source, at, m) && i < |Parcels(target, m)| && ObjectFails(w, trail, n, Parcels(target, m)[i])
    case TargetTaken(at, m, taken) =>
      Sourced(trail, n, source, at, m) && TakenAt(trail, n, target, CopyOf(target, m), taken)
    case SourceMoved(at, m) => Sourced(trail, n, source, at, m) && Rewrites(trail, n, ManifestKey(source)) > 0
  }

  /** The source was stored as loaded at that moment. */
  predicate LoadedAt(trail: seq<Moment>, n: nat, source: Identity, ld: Loaded, at: nat) {
    During(trail, n, at) && StoredAs(trail[at].store, source, ld)
  }

  lemma RestoreFailsSince(w: World, trail: seq<Moment>, n: nat, later: nat, id: Identity, m: Manifest)
    requires n <= later && RestoreFails(w, trail, later, id, m)
    ensures RestoreFails(w, trail, n, id, m)
  {
  }

  lemma RollFailsSince(w: World, trail: seq<Moment>, n: nat, later: nat, source: Identity, target: Identity,
                       why: RollCause)
    requires n <= later && RollFails(w, trail, later, source, target, why) && !why.SourceMoved?
    ensures RollFails(w, trail, n, source, target, why)
  {
    match why
    case Unrestorable(_, m) => RestoreFailsSince(w, trail, n, later, source, m);
    case Uncopied(_, m, i) => ObjectFailsSince(w, trail, n, later, Parcels(target, m)[i]);
    case _ =>
  }

  /** A source that was once as loaded and later is not has been written in between. */
  lemma ChangedSince(trail: seq<Moment>, n: nat, i: nat, j: nat, source: Identity, ld: Loaded)
    requires n <= i <= j < |trail|
    requires StoredAs(trail[i].store, source, ld) && !StoredAs(trail[j].store, source, ld)
    ensures Rewrites(trail, n, ManifestKey(source)) > 0
  {
    RewritesGrow(trail[..i + 1], trail[..j + 1], n, ManifestKey(source));
    RewritesGrow(trail[..j + 1], trail, n, ManifestKey(source));
  }

  /** The objects of one cluster, shared by all callers. */
  class SharedStore {
    var store: Store
    var version: nat
    ghost var trail: seq<Moment>

    ghost predicate Valid()
      reads this
    {
      && trail != [] && trail[|trail| - 1].store == store
      && forall k :: k in store ==> store[k].version < version
    }

    constructor ()
      ensures Valid() && store == map[]
    {
      store, version, trail := map[], 0, [Moment(map[], false)];
    }

    /** Whatever others write and delete meanwhile; each write gives a fresh version. */
    method Others()
      requires Valid()
      modifies this
      ensures Valid() && version >= old(version) && OldOnes(old(store), old(version), store)
      ensures old(trail) <= trail && forall i :: |old(trail)| <= i < |trail| ==> !trail[i].own
    {
      var writes: nat :| writes >= 0;
      for n := 0 to writes
        invariant Valid() && version >= old(version) && OldOnes(old(store), old(version), store)
        invariant old(trail) <= trail && forall i :: |old(trail)| <= i < |trail| ==> !trail[i].own
      {
        var written: map<Key, Blob> := *;
        var removed: set<Key> := *;
        store := (store - removed) + map k | k in written :: Obj(written[k], version, 0);
        version, trail := version + 1, trail + [Moment(store, false)];
      }
    }

    /** A put conditional on the version. */
    method Swap(key: Key, blob: Blob, expected: nat) returns (ok: bool)
      requires Valid()
      modifies this
      ensures Valid() && version >= old(version) && OldOnes(old(store), old(version), store)
      ensures ok <==> key in old(store) && old(store)[key].version == expected
      ensures ok ==>
                && store == old(store)[key := Obj(blob, old(version), 0)]
                && trail == old(trail) + [Moment(store, true)]
      ensures ok ==> version == old(version) + 1
      ensures !ok ==> store == old(store) && trail == old(trail)
    {
      ok := key in store && store[key].version == expected;
      if ok {
        store, version := store[key := Obj(blob, version, 0)], version + 1;
        trail := trail + [Moment(store, true)];
      }
    }

    /** Put if absent; an equal object already there is as good. */
    method Create(key: Key, blob: Blob) returns (r: Option<nat>)
      requires Valid()
      modifies this
      ensures Valid() && version >= old(version) && OldOnes(old(store), old(version), store)
      ensures r.None? <==> key in old(store) && old(store)[key].blob != blob
      ensures r.Some? ==> key in store && store[key].blob == blob && store[key].version == r.value
      ensures forall k :: k in old(store) ==> k in store && store[k] == old(store)[k]
      ensures store.Keys == old(store).Keys + {key}
      ensures trail == if key in old(store) then old(trail) else old(trail) + [Moment(store, true)]
    {
      if key !in store {
        store, version := store[key := Obj(blob, version, 0)], version + 1;
        trail := trail + [Moment(store, true)];
        return Some(version - 1);
      }
      return if store[key].blob == blob then Some(store[key].version) else None;
    }

    /** Delete if the version is this one. */
    method DeleteExact(key: Key, expected: nat) returns (ok: bool)
      requires Valid()
      modifies this
      ensures Valid() && version == old(version)
      ensures ok <==> key in old(store) && old(store)[key].version == expected
      ensures store == if ok then old(store) - {key} else old(store)
      ensures trail == if ok then old(trail) + [Moment(store, true)] else old(trail)
    {
      ok := key in store && store[key].version == expected;
      if ok {
        store := store - {key};
        trail := trail + [Moment(store, true)];
      }
    }

    method LoadCheckpoint(id: Identity) returns (r: Result<Loaded>)
      requires Valid()
      ensures r.Ok? <==> Readable(store, id)
      ensures r.Ok? ==> ValidManifest(id, r.value.manifest) && StoredAs(store, id, r.value)
    {
      if ManifestKey(id) !in store { return Err(InvalidCheckpoint); }
      var o := store[ManifestKey(id)];
      if !o.blob.ManifestBlob? { return Err(InvalidCheckpoint); }
      var valid := ValidateManifest(id, o.blob.manifest);
      if valid.Err? { return Err(valid.error); }
      return Ok(Loaded(o.blob.manifest, o.version));
    }

    /** Others may come first; then the swap against the loaded version. */
    method TrySwap(id: Identity, next: Manifest, loaded: Loaded) returns (r: Option<Loaded>)
      requires Valid() && loaded.version < version && Current(store, id, loaded)
      modifies this
      ensures Valid() && old(trail) <= trail
      ensures r.Some? ==>
                && r.value.manifest == next && r.value.version < version && StoredAs(store, id, r.value)
                && SwappedIn(trail, |old(trail)|, id, loaded.manifest, r.value)
      ensures r.None? ==> Untouched(trail, |old(trail)|, ManifestKey(id))
      ensures r.None? ==> !(ManifestKey(id) in store && store[ManifestKey(id)].version == loaded.version)
    {
      Others();
      ghost var before := trail;
      var swapped := Swap(ManifestKey(id), ManifestBlob(next), loaded.version);
      if !swapped { return None; }
      assert trail[..|trail| - 1] == before;
      return Some(Loaded(next, version - 1));
    }

    /** The part of one attempt before the swap: place the batch, create its segment, build the next manifest. */
    method Prepare(w: World, id: Identity, entries: seq<Entry>, loaded: Loaded) returns (r: Result<Option<Manifest>>)
      requires Valid() && entries != [] && ValidManifest(id, loaded.manifest)
      requires loaded.version < version && Current(store, id, loaded)
      modifies this
      ensures Valid() && loaded.version < version && Current(store, id, loaded)
      ensures old(trail) <= trail && Untouched(trail, |old(trail)|, ManifestKey(id))
      ensures r == Ok(None) ==> CoversLast(w, store, id, loaded.manifest, entries)
      ensures r.Ok? && r.value.Some? ==>
                var next := r.value.value;
                && ValidManifest(id, next) && Extends(loaded.manifest, next) && next.tip == EndTip(entries, next.tip)
                && SegmentKept(w, trail, |old(trail)| - 1, next)
      ensures r.Err? ==> AttemptFails(w, trail, |old(trail)| - 1, id, loaded.manifest, entries, r.error)
    {
      Others();
      var placed := SuffixStart(w, store, id, loaded.manifest, entries);
      if placed.Err? { return Err(placed.error); }
      if placed.value.None? { return Ok(None); }
      if ValidPublication(w, id, entries) { SuffixStartChains(w, store, id, loaded.manifest, entries); }
      var k := placed.value.value;
      if |entries| <= k { return Err(InvalidCheckpoint); }
      var chained := ValidateDecodedEntries(w, id, entries[k..], loaded.manifest.tip);
      if chained.Err? { return Err(chained.error); }
      r := CreateSegment(w, id, entries, k, loaded, |old(trail)| - 1);
    }

    /** Creates the segment object for the entries from the k-th on and builds the manifest that references it; the
        call began at the n-th moment. */
    method CreateSegment(w: World, id: Identity, entries: seq<Entry>, k: nat, loaded: Loaded, ghost n: nat)
      returns (r: Result<Option<Manifest>>)
      requires Valid() && k < |entries| && n < |trail|
      requires ValidManifest(id, loaded.manifest) && Chained(w, id, entries[k..], loaded.manifest.tip)
      requires loaded.version < version && Current(store, id, loaded)
      modifies this
      ensures Valid() && loaded.version < version && Current(store, id, loaded)
      ensures old(trail) <= trail && Untouched(trail, |old(trail)|, ManifestKey(id))
      ensures r != Ok(None)
      ensures r.Ok? ==>
                var next := r.value.value;
                && ValidManifest(id, next) && Extends(loaded.manifest, next) && next.tip == EndTip(entries, next.tip)
                && SegmentKept(w, trail, n, next)
      ensures r.Err? ==> AttemptFails(w, trail, n, id, loaded.manifest, entries, r.error)
    {
      var es := entries[k..];
      var put := PutSegment(w, id, es, loaded);
      if !put {
        SegmentEndsAttempt(w, trail, n, id, loaded.manifest, entries, k, AlreadyExists);
        return Err(AlreadyExists);
      }
      var next := AppendRecord(loaded.manifest, RecordOf(w, id, es));
      var valid := ValidateManifest(id, next);
      if w.size(SegmentBlob(es)) != 0 { AppendExtends(w, id, loaded.manifest, es); }
      if valid.Err? {
        SegmentEndsAttempt(w, trail, n, id, loaded.manifest, entries, k, valid.error);
        return Err(valid.error);
      }
      NextExtends(w, id, loaded.manifest, es);
      LastOfSuffix(entries, k, next.tip);
      return Ok(Some(next));
    }

    method PutSegment(w: World, id: Identity, es: seq<Entry>, ghost loaded: Loaded) returns (ok: bool)
      requires Valid() && es != [] && loaded.version < version && Current(store, id, loaded)
      modifies this
      ensures Valid() && loaded.version < version && Current(store, id, loaded)
      ensures old(trail) <= trail && Untouched(trail, |old(trail)|, ManifestKey(id))
      ensures var r := RecordOf(w, id, es);
              if ok then Intact(w, trail[|trail| - 1].store, r.key, r.size, r.sha)
              else Occupied(trail, |old(trail)| - 1, r.key, SegmentBlob(es))
    {
      var record := RecordOf(w, id, es);
      Others();
      var created := Create(record.key, SegmentBlob(es));
      ok := created.Some?;
      assert trail[|trail| - 1].store == store;
    }

    /** One attempt.  It returns the manifest that covers the batch, swapped in by this attempt or as loaded, or
        nothing if the manifest was rewritten meanwhile. */
    method Attempt(w: World, id: Identity, entries: seq<Entry>, loaded: Loaded)
      returns (r: Result<Option<Loaded>>, ghost mine: bool)
      requires Valid() && entries != [] && ValidManifest(id, loaded.manifest)
      requires loaded.version < version && Current(store, id, loaded)
      modifies this
      ensures Valid() && old(trail) <= trail
      ensures r.Err? ==> !mine && AttemptFails(w, trail, |old(trail)| - 1, id, loaded.manifest, entries, r.error)
      ensures r == Ok(None) ==> !mine && !(ManifestKey(id) in store && store[ManifestKey(id)].version == loaded.version)
      ensures r.Ok? && r.value.Some? ==>
                var now := r.value.value;
                && Published(w, store, id, now.manifest, entries) && now.version < version && Current(store, id, now)
                && (mine ==>
                      && SwappedIn(trail, |old(trail)|, id, loaded.manifest, now)
                      && Extends(loaded.manifest, now.manifest)
                      && SegmentKept(w, trail, |old(trail)| - 1, now.manifest))
      ensures !mine ==> Untouched(trail, |old(trail)|, ManifestKey(id))
    {
      var next := Prepare(w, id, entries, loaded);
      if next.Err? { return Err(next.error), false; }
      if next.value.None? { return Ok(Some(loaded)), false; }
      ghost var before := trail;
      var swapped := TrySwap(id, next.value.value, loaded);
      if swapped.Some? {
        SwappedSince(trail, before, |old(trail)|, id, loaded.manifest, swapped.value);
        SegmentKeptStill(w, before, trail, |old(trail)| - 1, next.value.value);
        return Ok(swapped), true;
      }
      UntouchedSince(trail, before, |old(trail)|, ManifestKey(id));
      return Ok(None), false;
    }

    /** One attempt, and a reload if the manifest was rewritten meanwhile. */
    method Round(w: World, id: Identity, entries: seq<Entry>, loaded: Loaded, ghost n: nat, ghost start: Manifest)
      returns (r: Result<Loaded>, done: bool, ghost mine: bool, ghost why: Cause)
      requires Valid() && entries != [] && ValidManifest(id, loaded.manifest)
      requires loaded.version < version && Current(store, id, loaded)
      requires n < |trail| && Known(trail, n, id, start, loaded.manifest)
      modifies this
      ensures Valid() && old(trail) <= trail
      ensures r.Err? ==> PublishFails(w, trail, n, id, start, entries, r.error, why)
      ensures r.Ok? ==> r.value.version < version && Current(store, id, r.value)
      ensures r.Ok? && done ==> Published(w, store, id, r.value.manifest, entries)
      ensures mine ==>
                && r.Ok? && done && SwappedIn(trail, |old(trail)|, id, loaded.manifest, r.value)
                && Extends(loaded.manifest, r.value.manifest)
                && SegmentKept(w, trail, |old(trail)| - 1, r.value.manifest)
      ensures !mine ==> Untouched(trail, |old(trail)|, ManifestKey(id))
      ensures r.Ok? && !done ==> Reloaded(old(trail), trail, n, id, start, loaded, r.value)
    {
      var tried;
      tried, mine := Attempt(w, id, entries, loaded);
      done, why := true, Refused(loaded.manifest);
      if tried.Err? {
        AttemptEndsCall(w, old(trail), trail, n, id, start, loaded.manifest, entries, tried.error);
        return Err(tried.error), true, false, why;
      }
      if tried.value.Some? { return Ok(tried.value.value), true, mine, why; }
      r := Reload(id, n, start, loaded, old(trail));
      done, why := false, NoManifest(|trail| - 1);
    }

    /** After a lost swap. */
    method Reload(id: Identity, ghost n: nat, ghost start: Manifest, ghost lost: Loaded, ghost before: seq<Moment>)
      returns (r: Result<Loaded>)
      requires Valid() && before <= trail && n < |before|
      requires !(ManifestKey(id) in store && store[ManifestKey(id)].version == lost.version)
      ensures r.Err? ==> !Readable(trail[|trail| - 1].store, id)
      ensures r.Ok? ==> r.value.version < version && Reloaded(before, trail, n, id, start, lost, r.value)
    {
      RewritesGrow(before, trail, n, ManifestKey(id));
      r := LoadCheckpoint(id);
    }

    /** The publication loop.  A manifest it returns is valid and covers the batch.  If it wrote one, that is its
        only write to the manifest, it replaced the manifest stored at that very moment, it extends that
        manifest, and its new segment was in place; otherwise this call has not touched the manifest.  It fails
        only for a stated reason. */
    method PublishCommitted(w: World, id: Identity, entries: seq<Entry>, start: Loaded)
      returns (r: Result<Loaded>, ghost replaced: Option<Manifest>, ghost why: Cause)
      requires Valid() && entries != []
      requires ValidManifest(id, start.manifest) && start.version < version && Current(store, id, start)
      modifies this
      ensures Valid() && old(trail) <= trail
      ensures r.Ok? ==> Published(w, store, id, r.value.manifest, entries)
      ensures r.Ok? ==> r.value.version < version && Current(store, id, r.value)
      ensures replaced.Some? ==>
                && r.Ok? && SwappedIn(trail, |old(trail)|, id, replaced.value, r.value)
                && Extends(replaced.value, r.value.manifest)
                && SegmentKept(w, trail, |old(trail)| - 1, r.value.manifest)
      ensures replaced.None? ==> Untouched(trail, |old(trail)|, ManifestKey(id))
      ensures r.Err? ==> PublishFails(w, trail, |old(trail)| - 1, id, start.manifest, entries, r.error, why)
    {
      var loaded := start;
      ghost var n := |trail| - 1;
      for attempt := 0 to MAX_ATTEMPTS
        invariant Valid() && old(trail) <= trail && Untouched(trail, |old(trail)|, ManifestKey(id))
        invariant ValidManifest(id, loaded.manifest) && loaded.version < version && Current(store, id, loaded)
        invariant Known(trail, n, id, start.manifest, loaded.manifest)
        invariant attempt > 0 ==> StoredAs(store, id, loaded) && Rewrites(trail, n, ManifestKey(id)) >= attempt - 1
      {
        ghost var before := trail;
        var tried, done, mine, cause := Round(w, id, entries, loaded, n, start.manifest);
        if mine {
          SwappedSince(trail, before, |old(trail)|, id, loaded.manifest, tried.value);
          SegmentKeptSince(w, trail, n, |before| - 1, tried.value.manifest);
        } else {
          UntouchedSince(trail, before, |old(trail)|, ManifestKey(id));
        }
        if tried.Err? { return tried, None, cause; }
        if done { return tried, if mine then Some(loaded.manifest) else None, cause; }
        loaded := tried.value;
      }
      return Err(Precondition), None, Overtaken;
    }

    /** One attempt of a snapshot publication. */
    method SnapshotRound(w: World, id: Identity, snapshot: SnapshotBase, bytes: Bytes, loaded: Loaded, ghost n: nat,
                         ghost start: Manifest)
      returns (r: Result<Loaded>, done: bool, ghost mine: bool, ghost why: Cause)
      requires Valid() && ValidSnapshotBase(id, snapshot)
      requires ValidManifest(id, loaded.manifest) && loaded.version < version && Current(store, id, loaded)
      requires n < |trail| && Known(trail, n, id, start, loaded.manifest)
      modifies this
      ensures Valid() && old(trail) <= trail
      ensures r.Err? ==> SnapshotFails(w, trail, n, id, start, snapshot, bytes, r.error, why)
      ensures r.Ok? && done ==> ValidManifest(id, r.value.manifest) && r.value.manifest.base == Snapshot(snapshot)
      ensures mine ==>
                && r.Ok? && done && SwappedIn(trail, |old(trail)|, id, loaded.manifest, r.value)
                && Compact(loaded.manifest, snapshot) == Ok(Replaced(r.value.manifest))
                && r.value.manifest.tip == loaded.manifest.tip && Extends(loaded.manifest, r.value.manifest)
      ensures !mine ==> Untouched(trail, |old(trail)|, ManifestKey(id))
      ensures r.Ok? && !done ==> r.value.version < version && Reloaded(old(trail), trail, n, id, start, loaded, r.value)
    {
      done, mine, why := true, false, Refused(loaded.manifest);
      var compacted := Compact(loaded.manifest, snapshot);
      if compacted.Err? { return Err(compacted.error), true, false, why; }
      if compacted.value.Unchanged? { return Ok(loaded), true, false, why; }
      var next := compacted.value.manifest;
      var valid := ValidateManifest(id, next);
      if loaded.manifest.format == CHECKPOINT_FORMAT { CompactExtends(id, loaded.manifest, snapshot); }
      if valid.Err? { return Err(valid.error), true, false, why; }
      var swapped := TrySwap(id, next, loaded);
      if swapped.Some? { return Ok(swapped.value), true, true, why; }
      r := Reload(id, n, start, loaded, old(trail));
      done, why := false, NoManifest(|trail| - 1);
    }

    /** The snapshot loop.  It returns a valid manifest based on the snapshot, whose object was in place.  If it
        wrote one, it replaced the manifest stored at that very moment, whose tip it keeps and which it extends;
        otherwise this call has not touched the manifest.  It fails only for a stated reason. */
    method PublishSnapshot(w: World, id: Identity, snapshot: SnapshotBase, bytes: Bytes, start: Loaded)
      returns (r: Result<Loaded>, ghost replaced: Option<Manifest>, ghost why: Cause)
      requires Valid()
      requires ValidManifest(id, start.manifest) && start.version < version && Current(store, id, start)
      modifies this
      ensures Valid() && old(trail) <= trail
      ensures r.Ok? ==> ValidManifest(id, r.value.manifest) && r.value.manifest.base == Snapshot(snapshot)
      ensures r.Ok? ==> Honest(w, id, snapshot, bytes)
      ensures replaced.Some? ==>
                && r.Ok? && SwappedIn(trail, |old(trail)|, id, replaced.value, r.value)
                && Compact(replaced.value, snapshot) == Ok(Replaced(r.value.manifest))
                && r.value.manifest.tip == replaced.value.tip && Extends(replaced.value, r.value.manifest)
      ensures replaced.None? ==> Untouched(trail, |old(trail)|, ManifestKey(id))
      ensures r.Ok? ==> SnapshotSeen(w, trail, |old(trail)| - 1, snapshot)
      ensures r.Err? ==> SnapshotFails(w, trail, |old(trail)| - 1, id, start.manifest, snapshot, bytes, r.error, why)
    {
      var there, cause := PlaceSnapshot(w, id, snapshot, bytes, start);
      if there.Err? { return Err(there.error), None, cause; }
      ghost var placed := trail;
      r, replaced, why := SwapSnapshot(w, id, snapshot, bytes, start, |old(trail)|);
      SnapshotSeenStill(w, placed, trail, |old(trail)| - 1, snapshot);
    }

    /** The object of a snapshot that is what it claims to be is put in place. */
    method PlaceSnapshot(w: World, id: Identity, snapshot: SnapshotBase, bytes: Bytes, ghost start: Loaded)
      returns (r: Result<()>, ghost why: Cause)
      requires Valid() && start.version < version && Current(store, id, start)
      modifies this
      ensures Valid() && start.version < version && Current(store, id, start)
      ensures old(trail) <= trail && Untouched(trail, |old(trail)|, ManifestKey(id))
      ensures r.Ok? ==> Honest(w, id, snapshot, bytes) && SnapshotSeen(w, trail, |old(trail)| - 1, snapshot)
      ensures r.Err? ==> SnapshotFails(w, trail, |old(trail)| - 1, id, start.manifest, snapshot, bytes, r.error, why)
    {
      if !ValidSnapshotBase(id, snapshot) { return Err(InvalidCheckpoint), Dishonest; }
      if snapshot.digest != w.sha(SnapshotBlob(bytes)) { return Err(ChecksumMismatch), Dishonest; }
      if snapshot.size != w.size(SnapshotBlob(bytes)) { return Err(SizeMismatch), Dishonest; }
      r := CreateVerified(w, id, snapshot.key, SnapshotBlob(bytes), snapshot.size, snapshot.digest);
      why := ObjectGone(|trail| - 1);
    }

    /** The retry loop, once the object is in place; the call began before the n-th moment. */
    method SwapSnapshot(w: World, id: Identity, snapshot: SnapshotBase, bytes: Bytes, start: Loaded, ghost n: nat)
      returns (r: Result<Loaded>, ghost replaced: Option<Manifest>, ghost why: Cause)
      requires Valid() && ValidSnapshotBase(id, snapshot)
      requires 1 <= n <= |trail| && Untouched(trail, n, ManifestKey(id))
      requires ValidManifest(id, start.manifest) && start.version < version && Current(store, id, start)
      modifies this
      ensures Valid() && old(trail) <= trail
      ensures r.Ok? ==> ValidManifest(id, r.value.manifest) && r.value.manifest.base == Snapshot(snapshot)
      ensures replaced.Some? ==>
                && r.Ok? && SwappedIn(trail, n, id, replaced.value, r.value)
                && Compact(replaced.value, snapshot) == Ok(Replaced(r.value.manifest))
                && r.value.manifest.tip == replaced.value.tip && Extends(replaced.value, r.value.manifest)
      ensures replaced.None? ==> Untouched(trail, n, ManifestKey(id))
      ensures r.Err? ==> SnapshotFails(w, trail, n - 1, id, start.manifest, snapshot, bytes, r.error, why)
    {
      var loaded := start;
      for attempt := 0 to MAX_ATTEMPTS
        invariant Valid() && old(trail) <= trail && Untouched(trail, n, ManifestKey(id))
        invariant ValidManifest(id, loaded.manifest) && loaded.version < version && Current(store, id, loaded)
        invariant Known(trail, n - 1, id, start.manifest, loaded.manifest)
        invariant attempt > 0 ==>
                    StoredAs(store, id, loaded) && Rewrites(trail, n - 1, ManifestKey(id)) >= attempt - 1
      {
        ghost var before := trail;
        var tried, done, mine, cause := SnapshotRound(w, id, snapshot, bytes, loaded, n - 1, start.manifest);
        if mine {
          SwappedSince(trail, before, n, id, loaded.manifest, tried.value);
        } else {
          UntouchedSince(trail, before, n, ManifestKey(id));
        }
        if tried.Err? { return tried, None, cause; }
        if done { return tried, if mine then Some(loaded.manifest) else None, cause; }
        loaded := tried.value;
      }
      return Err(Precondition), None, Overtaken;
    }

    // ------------------------------------------------------------ copying

    /** Create or keep, then verify what is there; the manifests of a generation of interest stay untouched. */
    method CreateVerified(w: World, id: Identity, key: Key, blob: Blob, size: nat, sha: Hash) returns (r: Result<()>)
      requires Valid() && !key.ManifestKey?
      modifies this
      ensures Valid() && version >= old(version) && OldOnes(old(store), old(version), store)
      ensures old(trail) <= trail && Untouched(trail, |old(trail)|, ManifestKey(id))
      ensures r.Ok? <==> Intact(w, store, key, size, sha)
    {
      Others();
      var _ := Create(key, blob);
      Others();
      var there := Download(w, store, key, size, sha);
      return if there.Ok? then Ok(()) else Err(there.error);
    }

    /** The restore of a manifest, one object at a time with others in between.  What it returns is what the
        manifest restores to wherever its objects are intact. */
    method RestoreAmidOthers(w: World, id: Identity, m: Manifest) returns (r: Result<Restored>)
      requires Valid() && CollisionFreeDigest(w)
      modifies this
      ensures Valid() && version >= old(version) && OldOnes(old(store), old(version), store)
      ensures old(trail) <= trail && forall i :: |old(trail)| <= i < |trail| ==> !trail[i].own
      ensures r.Ok? ==> RestoresTo(w, id, m, r.value)
      ensures r.Err? ==> RestoreFails(w, trail, |old(trail)| - 1, id, m)
    {
      Others();
      var base := RestoreBase(w, store, m.base);
      if base.Err? {
        BaseNeverReads(w, store, id, m);
        return Err(base.error);
      }
      BaseReads(w, store, id, m);
      var es: seq<Entry> := [];
      for n := 0 to |m.segments|
        invariant Valid() && version >= old(version) && OldOnes(old(store), old(version), store)
        invariant old(trail) <= trail && forall i :: |old(trail)| <= i < |trail| ==> !trail[i].own
        invariant ReadsTo(w, id, m, n, base.value, es)
      {
        Others();
        var got := LoadSegment(w, store, id, m.segments[n]);
        if got.Err? {
          SegmentNeverReads(w, store, id, m, n, base.value, es);
          return Err(got.error);
        }
        if !Chained(w, id, got.value, EndTip(es, BaseTip(m.base))) {
          SegmentNeverReads(w, store, id, m, n, base.value, es);
          return Err(InvalidCheckpoint);
        }
        SegmentReads(w, store, id, m, n, base.value, es);
        es := es + got.value;
      }
      if EndTip(es, BaseTip(m.base)) != m.tip {
        TipNeverMet(w, id, m, base.value, es);
        return Err(InvalidCheckpoint);
      }
      FinishReads(w, id, m, base.value, es);
      return Ok(Restored(base.value, es, m.tip));
    }

    /** Downloads one object of the source, creates it under the target's key unless something is there, and
        verifies what is there. */
    method CopyObject(w: World, target: Identity, x: Parcel) returns (r: Result<()>)
      requires Valid() && !x.to.ManifestKey?
      modifies this
      ensures Valid() && version >= old(version) && OldOnes(old(store), old(version), store)
      ensures old(trail) <= trail && Untouched(trail, |old(trail)|, ManifestKey(target))
      ensures r.Ok? ==> Intact(w, store, x.to, x.size, x.sha)
      ensures r.Err? ==> ObjectFails(w, trail, |old(trail)| - 1, x)
    {
      Others();
      var bytes := Download(w, store, x.from, x.size, x.sha);
      if bytes.Err? {
        assert !Intact(w, trail[|trail| - 1].store, x.from, x.size, x.sha);
        return Err(bytes.error);
      }
      r := CreateVerified(w, target, x.to, bytes.value, x.size, x.sha);
    }

    /** The copy loop: each object is downloaded, created under the target's key and verified there, with others
        in between.  On success each was in place and intact at some moment of the call, that is since `from`. */
    method CopyObjects(w: World, target: Identity, m: Manifest, ghost from: nat)
      returns (r: Result<()>, ghost failed: nat)
      requires Valid() && from < |trail|
      modifies this
      ensures Valid() && version >= old(version) && OldOnes(old(store), old(version), store)
      ensures old(trail) <= trail && Untouched(trail, |old(trail)|, ManifestKey(target))
      ensures r.Ok? ==> AllSeen(w, trail, from, Parcels(target, m), |Parcels(target, m)|)
      ensures r.Err? ==> failed < |Parcels(target, m)| && ObjectFails(w, trail, from, Parcels(target, m)[failed])
    {
      var xs := Parcels(target, m);
      for n := 0 to |xs|
        invariant Valid() && version >= old(version) && OldOnes(old(store), old(version), store)
        invariant old(trail) <= trail && Untouched(trail, |old(trail)|, ManifestKey(target))
        invariant AllSeen(w, trail, from, xs, n)
      {
        ghost var before := trail;
        ParcelKey(target, m, n);
        var copied := CopyObject(w, target, xs[n]);
        if copied.Err? {
          ObjectFailsSince(w, trail, from, |before| - 1, xs[n]);
          return Err(copied.error), n;
        }
        SeenNow(w, trail, from, xs[n]);
        AllSeenStill(w, before, trail, from, xs, n);
      }
      return Ok(()), 0;
    }

    /** Loads the source, at the moment `at`, and restores it.  The restore loads the manifest once more; if the source
        is still as loaded when the call ends, it was that same manifest that was restored. */
    method ReadSource(w: World, source: Identity, target: Identity)
      returns (r: Result<Loaded>, ghost result: Restored, ghost at: nat, ghost why: RollCause)
      requires Valid() && CollisionFreeDigest(w)
      modifies this
      ensures Valid() && version >= old(version) && old(trail) <= trail
      ensures Untouched(trail, |old(trail)|, ManifestKey(target))
      ensures r.Ok? ==>
                && ValidManifest(source, r.value.manifest) && r.value.manifest.format == CHECKPOINT_FORMAT
                && r.value.version < version && Current(store, source, r.value)
                && (StoredAs(store, source, r.value) ==> RestoresTo(w, source, r.value.manifest, result))
                && LoadedAt(trail, |old(trail)| - 1, source, r.value, at)
      ensures r.Err? ==> RollFails(w, trail, |old(trail)| - 1, source, target, why) && !why.SourceMoved?
    {
      result := Restored(None, [], Tip(0, ZERO));
      Others();
      var loaded := LoadCheckpoint(source);
      at, why := |trail| - 1, NoSource(|trail| - 1);
      if loaded.Err? { return Err(loaded.error), result, at, why; }
      ghost var first := trail;
      if loaded.value.manifest.format != CHECKPOINT_FORMAT {
        return Err(InvalidCheckpoint), result, at, OldSource(at, loaded.value.manifest);
      }
      var restored;
      restored, result, why := RestoreSource(w, source, target, loaded.value);
      assert trail[at] == first[at];
      if restored.Err? {
        RollFailsSince(w, trail, |old(trail)| - 1, |first| - 1, source, target, why);
        return Err(restored.error), result, at, why;
      }
      return loaded, result, at, why;
    }

    /** The restore of a source that was loaded before, if there still is one. */
    method RestoreSource(w: World, source: Identity, target: Identity, ghost ld: Loaded)
      returns (r: Result<()>, ghost result: Restored, ghost why: RollCause)
      requires Valid() && CollisionFreeDigest(w) && ld.version < version && Current(store, source, ld)
      modifies this
      ensures Valid() && version >= old(version) && old(trail) <= trail && Current(store, source, ld)
      ensures Untouched(trail, |old(trail)|, ManifestKey(target))
      ensures r.Ok? && StoredAs(store, source, ld) ==> RestoresTo(w, source, ld.manifest, result)
      ensures r.Err? ==> RollFails(w, trail, |old(trail)| - 1, source, target, why) && !why.SourceMoved?
    {
      result := Restored(None, [], Tip(0, ZERO));
      Others();
      why := NoSource(|trail| - 1);
      if ManifestKey(source) !in store { return Ok(()), result, why; }
      var reread := LoadCheckpoint(source);
      if reread.Err? { return Err(reread.error), result, why; }
      ghost var before := trail;
      var restored := RestoreAmidOthers(w, source, reread.value.manifest);
      if restored.Err? {
        assert trail[|before| - 1] == before[|before| - 1];
        RestoreFailsSince(w, trail, |old(trail)| - 1, |before| - 1, source, reread.value.manifest);
        return Err(restored.error), result, Unrestorable(|before| - 1, reread.value.manifest);
      }
      return Ok(()), restored.value, why;
    }

    /** The part of a copy before the target's manifest: read the source, copy its objects. */
    method CopyAll(w: World, source: Identity, target: Identity)
      returns (r: Result<Loaded>, ghost result: Restored, ghost at: nat, ghost why: RollCause)
      requires Valid() && CollisionFreeDigest(w) && SameLineage(source, target)
      modifies this
      ensures Valid() && old(trail) <= trail && Untouched(trail, |old(trail)|, ManifestKey(target))
      ensures r.Ok? ==>
                && ValidManifest(source, r.value.manifest) && r.value.manifest.format == CHECKPOINT_FORMAT
                && r.value.version < version && Current(store, source, r.value)
                && (StoredAs(store, source, r.value) ==> RestoresTo(w, source, r.value.manifest, result))
                && AllSeen(w, trail, |old(trail)| - 1, Parcels(target, r.value.manifest),
                           |Parcels(target, r.value.manifest)|)
                && LoadedAt(trail, |old(trail)| - 1, source, r.value, at)
      ensures r.Err? ==> RollFails(w, trail, |old(trail)| - 1, source, target, why) && !why.SourceMoved?
    {
      r, result, at, why := ReadSource(w, source, target);
      if r.Err? { return; }
      ghost var before := trail;
      var copied, failed := CopyObjects(w, target, r.value.manifest, |old(trail)| - 1);
      UntouchedSince(trail, before, |old(trail)|, ManifestKey(target));
      assert trail[at] == before[at];
      if copied.Err? {
        why := Uncopied(at, r.value.manifest, failed);
        r := Err(copied.error);
        return;
      }
    }

    /** Rolling a checkpoint to the next recovery generation.  The manifest it returns is the copy of the source
        manifest it loaded, valid for the target, and restores to whatever that manifest restores to.  Unless it
        found that very manifest already there (`adopted`), the source was still as loaded when the call
        returned, and what the copy restores to is what the call's own restore of the source gave.  A call that
        fails after publishing has withdrawn what it published: that version of the target's manifest is no
        longer stored.  It fails only for one of the causes, and finds the source rewritten only after publishing. */
    method RollGeneration(w: World, source: Identity, target: Identity)
      returns (r: Result<Loaded>, ghost loaded: Option<Loaded>, ghost result: Restored, ghost adopted: bool,
               ghost published: Option<nat>, ghost why: RollCause)
      requires Valid() && CollisionFreeDigest(w)
      modifies this
      ensures Valid() && old(trail) <= trail
      ensures r.Ok? ==>
                && SameLineage(source, target) && loaded.Some? && ValidManifest(source, loaded.value.manifest)
                && r.value.manifest == CopyOf(target, loaded.value.manifest) && ValidManifest(target, r.value.manifest)
                && (forall x :: RestoresTo(w, source, loaded.value.manifest, x) ==>
                      RestoresTo(w, target, r.value.manifest, x))
                && AllSeen(w, trail, |old(trail)| - 1, Parcels(target, loaded.value.manifest),
                           |Parcels(target, loaded.value.manifest)|)
      ensures r.Ok? && adopted ==> StoredAs(store, target, r.value)
      ensures r.Ok? && !adopted ==>
                && published == Some(r.value.version) && StoredAs(store, source, loaded.value)
                && RestoresTo(w, target, r.value.manifest, result)
      ensures r.Err? && published.Some? ==>
                !(ManifestKey(target) in store && store[ManifestKey(target)].version == published.value)
      ensures r.Err? ==> RollFails(w, trail, |old(trail)| - 1, source, target, why)
      ensures r.Err? ==> (why.SourceMoved? <==> published.Some?)
    {
      loaded, result, adopted, published := None, Restored(None, [], Tip(0, ZERO)), false, None;
      r, why := Err(InvalidCheckpoint), NotNext;
      if !SameLineage(source, target) { return; }
      var all;
      ghost var at;
      all, result, at, why := CopyAll(w, source, target);
      if all.Err? { r := Err(all.error); return; }
      loaded := Some(all.value);
      ghost var before := trail;
      CopyIsValid(source, target, all.value.manifest);
      CopiesRestore(w, source, target, all.value.manifest);
      r, adopted, published, why := FinishCopy(w, source, target, all.value, |old(trail)| - 1, at);
      ghost var xs := Parcels(target, all.value.manifest);
      AllSeenStill(w, before, trail, |old(trail)| - 1, xs, |xs|);
    }

    /** The part of a copy that writes the target's manifest, or finds it there. */
    method FinishCopy(w: World, source: Identity, target: Identity, loaded: Loaded, ghost n: nat, ghost at: nat)
      returns (r: Result<Loaded>, ghost adopted: bool, ghost published: Option<nat>, ghost why: RollCause)
      requires Valid() && source != target && loaded.version < version && LoadedAt(trail, n, source, loaded, at)
      modifies this
      ensures Valid() && old(trail) <= trail
      ensures r.Ok? ==> r.value.manifest == CopyOf(target, loaded.manifest)
      ensures r.Ok? && adopted ==> StoredAs(store, target, r.value)
      ensures r.Ok? && !adopted ==>
                && published == Some(r.value.version) && StoredAs(store, source, loaded)
                && StoredAs(old(store), source, loaded)
      ensures r.Err? && published.Some? ==>
                !(ManifestKey(target) in store && store[ManifestKey(target)].version == published.value)
      ensures r.Err? ==> RollFails(w, trail, n, source, target, why) && (why.SourceMoved? <==> published.Some?)
    {
      var copy := CopyOf(target, loaded.manifest);
      adopted, published := false, None;
      Others();
      why := TargetTaken(at, loaded.manifest, |trail| - 1);
      if ManifestKey(target) in store {
        if store[ManifestKey(target)].blob != ManifestBlob(copy) { r := Err(TargetConflict); return; }
        adopted, r := true, Ok(Loaded(copy, store[ManifestKey(target)].version));
        return;
      }
      ghost var before := trail;
      ghost var moved, taken;
      r, adopted, published, moved, taken := PublishCopy(w, source, target, loaded, copy);
      assert trail[at] == before[at];
      if r.Err? && published.Some? {
        ChangedSince(trail, n, at, moved, source, loaded);
        why := SourceMoved(at, loaded.manifest);
      } else {
        why := TargetTaken(at, loaded.manifest, taken);
      }
    }

    /** Creating the target's manifest, rechecking the source, and withdrawing the manifest if it has changed: `moved`
        is a moment at which it had, `taken` one at which another manifest was in the target. */
    method PublishCopy(w: World, source: Identity, target: Identity, loaded: Loaded, copy: Manifest)
      returns (r: Result<Loaded>, ghost adopted: bool, ghost published: Option<nat>, ghost moved: nat, ghost taken: nat)
      requires Valid() && source != target && loaded.version < version
      modifies this
      ensures Valid() && old(trail) <= trail
      ensures r.Ok? ==> r.value.manifest == copy
      ensures r.Ok? && adopted ==> StoredAs(store, target, r.value)
      ensures r.Ok? && !adopted ==>
                && published == Some(r.value.version) && StoredAs(store, source, loaded)
                && StoredAs(old(store), source, loaded)
      ensures r.Err? && published.Some? ==>
                && !(ManifestKey(target) in store && store[ManifestKey(target)].version == published.value)
                && During(trail, |old(trail)| - 1, moved) && !StoredAs(trail[moved].store, source, loaded)
      ensures r.Err? && published.None? ==> TakenAt(trail, |old(trail)| - 1, target, copy, taken)
    {
      adopted, published := false, None;
      Others();
      ghost var looked := trail;
      taken, moved := |trail| - 1, 0;
      var created := Create(ManifestKey(target), ManifestBlob(copy));
      Others();
      if created.None? {
        assert trail[taken] == looked[taken];
        if !HasManifest(store, target, copy) { r := Err(TargetConflict); return; }
        adopted, r := true, Ok(Loaded(copy, store[ManifestKey(target)].version));
        return;
      }
      published := created;
      if !StoredAs(store, source, loaded) {
        ghost var changed := trail;
        moved := |trail| - 1;
        Others();
        var withdrawn := DeleteExact(ManifestKey(target), created.value);
        assert trail[moved] == changed[moved];
        r := Err(if withdrawn then InvalidCheckpoint else TargetConflict);
        return;
      }
      r := Ok(Loaded(copy, created.value));
    }
  }

  lemma CopiesRestore(w: World, source: Identity, target: Identity, m: Manifest)
    requires SameLineage(source, target) && ValidManifest(source, m)
    ensures forall x :: RestoresTo(w, source, m, x) ==> RestoresTo(w, target, CopyOf(target, m), x)
  {
    forall x | RestoresTo(w, source, m, x) ensures RestoresTo(w, target, CopyOf(target, m), x) {
      CopyRestoresAsSource(w, source, target, m, x);
    }
  }

  lemma LastOfSuffix(es: seq<Entry>, k: nat, tip: Tip)
    requires k < |es|
    ensures EndTip(es[k..], tip) == EndTip(es, tip)
  {
  }

  lemma NextExtends(w: World, id: Identity, m: Manifest, es: seq<Entry>)
    requires ValidManifest(id, m) && es != [] && Chained(w, id, es, m.tip)
    requires ValidManifest(id, AppendRecord(m, RecordOf(w, id, es)))
    ensures Extends(m, AppendRecord(m, RecordOf(w, id, es)))
  {
    var next := AppendRecord(m, RecordOf(w, id, es));
    assert RecordOk(id, next, |m.segments|);
    AppendExtends(w, id, m, es);
  }
}
