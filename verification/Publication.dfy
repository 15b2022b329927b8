/**
 How a batch of committed entries is placed against a manifest, and what an acknowledgement means.
 */
module Publication {
  import opened Model
  import opened Checkpoint

  // ---------------------------------------------------------------- placing a batch

  function ArchivedHashAt(w: World, store: Store, id: Identity, m: Manifest, index: nat): Result<Hash> {
    var base := BaseTip(m.base);
    if index == base.index then Ok(base.hash)
    else if index < base.index then Err(InvalidCheckpoint)
    else match RecordAt(m.segments, index)
         case None => Err(InvalidCheckpoint)
         case Some(record) =>
           match LoadSegment(w, store, id, record)
           case Err(e) => Err(e)
           case Ok(es) =>
             if record.start <= index && index - record.start < |es| then Ok(es[index - record.start].hash)
             else Err(InvalidCheckpoint)
  }

  /** Where the unpublished part of a batch starts; None when the manifest already covers all of it. */
  function SuffixStart(w: World, store: Store, id: Identity, m: Manifest, es: seq<Entry>): Result<Option<nat>>
    requires es != []
  {
    var first, last := es[0], es[|es| - 1];
    if m.tip.index >= last.index then
      match ArchivedHashAt(w, store, id, m, last.index)
      case Err(e) => Err(e)
      case Ok(archived) =>
        if archived == last.hash then Ok(None) else Err(PublicationConflict(last.index))
    else if m.tip.index >= MAX_U64 then Err(InvalidCheckpoint)
    else if m.tip.index + 1 < first.index then Err(InvalidCheckpoint)
    else if m.tip.index >= first.index then
      var offset := m.tip.index - first.index;
      if offset >= |es| then Err(InvalidCheckpoint)
      else match ArchivedHashAt(w, store, id, m, m.tip.index)
           case Err(e) => Err(e)
           case Ok(archived) =>
             if archived == es[offset].hash then Ok(Some(offset + 1))
             else Err(PublicationConflict(m.tip.index))
    else if m.tip.hash == first.prev then Ok(Some(0))
    else Err(PublicationConflict(first.index - 1))
  }

  /** The record that covers a position of a valid manifest starts where the restored entries before it
      end, so the archived hash of an index is the hash of the restored entry with that index. */
  lemma {:induction false} RecordRestores(w: World, store: Store, id: Identity, m: Manifest, j: nat)
    requires ValidManifest(id, m) && j < |m.segments|
    requires RestoreSegments(w, store, id, m.segments, BaseTip(m.base)).Ok?
    ensures var all := RestoreSegments(w, store, id, m.segments, BaseTip(m.base)).value;
            var from := TipBefore(m, j).index - BaseTip(m.base).index;
            && LoadSegment(w, store, id, m.segments[j]).Ok?
            && 0 <= from && from + |LoadSegment(w, store, id, m.segments[j]).value| <= |all|
            && LoadSegment(w, store, id, m.segments[j]).value
               == all[from..from + |LoadSegment(w, store, id, m.segments[j]).value|]
  {
    RestoreAfterCut(w, store, id, m, j);
    var all := RestoreSegments(w, store, id, m.segments, BaseTip(m.base)).value;
    var from := TipBefore(m, j).index - BaseTip(m.base).index;
    assert m.segments[j..][0] == m.segments[j];
    var es := LoadSegment(w, store, id, m.segments[j]).value;
    var rest := RestoreSegments(w, store, id, m.segments[j..][1..], EndTip(es, TipBefore(m, j))).value;
    assert all[from..] == es + rest;
    assert all[from..][..|es|] == es;
  }

  lemma RecordEntry(w: World, store: Store, id: Identity, m: Manifest, j: nat, index: nat)
    requires ValidManifest(id, m) && j < |m.segments| && m.segments[j].start <= index <= m.segments[j].end
    requires RestoreSegments(w, store, id, m.segments, BaseTip(m.base)).Ok?
    ensures var all := RestoreSegments(w, store, id, m.segments, BaseTip(m.base)).value;
            var at := index - BaseTip(m.base).index - 1;
            && LoadSegment(w, store, id, m.segments[j]).Ok?
            && index - m.segments[j].start < |LoadSegment(w, store, id, m.segments[j]).value|
            && 0 <= at < |all|
            && LoadSegment(w, store, id, m.segments[j]).value[index - m.segments[j].start] == all[at]
  {
    RecordRestores(w, store, id, m, j);
    assert RecordOk(id, m, j);
    EndsGrow(id, m, 0, j);
  }

  lemma ArchivedHashIsRestored(w: World, store: Store, id: Identity, m: Manifest, index: nat)
    requires ValidManifest(id, m) && BaseTip(m.base).index < index <= m.tip.index
    requires Restore(w, store, id, m).Ok?
    ensures var r := Restore(w, store, id, m).value;
            var at := index - BaseTip(m.base).index - 1;
            && at < |r.suffix|
            && r.suffix[at].index == index
            && ArchivedHashAt(w, store, id, m, index) == Ok(r.suffix[at].hash)
  {
    var base := BaseTip(m.base);
    var r := Restore(w, store, id, m).value;
    RestoredIsChained(w, store, id, m);
    var at := index - base.index - 1;
    assert LinkOk(w, id, r.suffix, base, at);
    ValidManifestCovers(id, m, index);
    var record := RecordAt(m.segments, index).value;
    var j :| 0 <= j < |m.segments| && m.segments[j] == record;
    RecordEntry(w, store, id, m, j, index);
  }

  /** A batch placed by `SuffixStart` really continues the manifest: the validation that follows the
      placement never fails. */
  lemma SuffixStartChains(w: World, store: Store, id: Identity, m: Manifest, es: seq<Entry>)
    requires ValidManifest(id, m) && es != [] && ValidPublication(w, id, es)
    requires SuffixStart(w, store, id, m, es).Ok? && SuffixStart(w, store, id, m, es).value.Some?
    ensures var k := SuffixStart(w, store, id, m, es).value.value;
            && k < |es|
            && Chained(w, id, es[k..], m.tip)
            && es[k].index == m.tip.index + 1
  {
    var k := SuffixStart(w, store, id, m, es).value.value;
    PublicationIndex(w, id, es, |es| - 1);
    PublicationIndex(w, id, es, k);
    if k > 0 {
      TipHashIsArchived(w, store, id, m);
      assert es[k].prev == es[k - 1].hash;
    }
    PublicationSuffixIsChained(w, id, es, k, m.tip);
  }

  /** The hash archived at the tip is the tip's own hash. */
  lemma TipHashIsArchived(w: World, store: Store, id: Identity, m: Manifest)
    requires ValidManifest(id, m)
    requires ArchivedHashAt(w, store, id, m, m.tip.index).Ok?
    ensures ArchivedHashAt(w, store, id, m, m.tip.index) == Ok(m.tip.hash)
  {
    var n := |m.segments|;
    if n > 0 {
      EndsGrow(id, m, 0, n);
      var last := m.segments[n - 1];
      assert RecordOk(id, m, n - 1);
      var front := m.segments[..n - 1];
      assert m.segments == front + [last];
      RecordAtConcat(front, [last], m.tip.index);
      forall k | 0 <= k < |front| ensures !(front[k].start <= m.tip.index <= front[k].end) {
        EndsGrow(id, m, k + 1, n);
      }
      RecordAtNone(front, m.tip.index);
    }
  }

  /** The batch starts at or right after the tip, and claims the tip's hash for the entry there. */
  predicate MeetsTip(es: seq<Entry>, tip: Tip)
    requires es != [] && tip.index < es[0].index + |es|
  {
    && es[0].index <= tip.index + 1
    && tip.hash == if es[0].index <= tip.index then es[tip.index - es[0].index].hash else es[0].prev
  }

  /** When a batch that ends above the tip is placed: exactly if it meets the tip, and then at the entry after
      the tip.  A batch that leaves a gap is refused as such, one that claims another hash at the tip as a
      conflict there. */
  lemma PlacedExactly(w: World, store: Store, id: Identity, m: Manifest, es: seq<Entry>)
    requires ValidManifest(id, m) && Restore(w, store, id, m).Ok?
    requires es != [] && ValidPublication(w, id, es)
    requires m.tip.index < es[|es| - 1].index <= MAX_U64
    ensures m.tip.index < es[0].index + |es|
    ensures SuffixStart(w, store, id, m, es)
            == if MeetsTip(es, m.tip) then Ok(Some(m.tip.index + 1 - es[0].index))
               else if m.tip.index + 1 < es[0].index then Err(InvalidCheckpoint)
               else Err(PublicationConflict(m.tip.index))
  {
    PublicationIndex(w, id, es, |es| - 1);
    if es[0].index <= m.tip.index {
      TipIsRestorable(w, store, id, m);
      TipHashIsArchived(w, store, id, m);
    }
  }

  lemma TipIsRestorable(w: World, store: Store, id: Identity, m: Manifest)
    requires ValidManifest(id, m) && Restore(w, store, id, m).Ok?
    ensures ArchivedHashAt(w, store, id, m, m.tip.index).Ok?
  {
    EndsGrow(id, m, 0, |m.segments|);
    if BaseTip(m.base).index < m.tip.index { ArchivedHashIsRestored(w, store, id, m, m.tip.index); }
  }

  /** When a batch that ends at or below the tip is refused: exactly if the checkpoint, or its base, holds another
      hash at the batch's last index, or the base has passed it. */
  lemma CoveredRefusedExactly(w: World, store: Store, id: Identity, m: Manifest, es: seq<Entry>)
    requires ValidManifest(id, m) && Restore(w, store, id, m).Ok?
    requires es != [] && es[|es| - 1].index <= m.tip.index
    ensures SuffixStart(w, store, id, m, es)
            == if Acknowledges(w, store, id, m, es) then Ok(None)
               else if es[|es| - 1].index < BaseTip(m.base).index then Err(InvalidCheckpoint)
               else Err(PublicationConflict(es[|es| - 1].index))
  {
    CoveredBatchIsAcknowledged(w, store, id, m, es);
    var last := es[|es| - 1];
    if BaseTip(m.base).index < last.index { ArchivedHashIsRestored(w, store, id, m, last.index); }
  }

  // ---------------------------------------------------------------- acknowledgements

  /** Two hash chains that agree on one hash agree on everything before it that both hold. */
  lemma {:induction false} ChainsAgree(w: World, id: Identity, a: seq<Entry>, i: nat, b: seq<Entry>, j: nat, d: nat)
    requires CollisionFreeEntryHash(w)
    requires ValidPublication(w, id, a) && ValidPublication(w, id, b)
    requires d <= i < |a| && d <= j < |b|
    requires a[i].hash == b[j].hash
    ensures a[i - d] == b[j - d]
  {
    assert w.entryHash(PreimageOf(a[i])) == w.entryHash(PreimageOf(b[j]));
    assert a[i] == b[j];
    if d > 0 {
      ChainsAgree(w, id, a, i - 1, b, j - 1, d - 1);
    }
  }

  lemma ChainedIsPublication(w: World, id: Identity, es: seq<Entry>, tip: Tip)
    requires Chained(w, id, es, tip)
    ensures ValidPublication(w, id, es)
  {
    forall i | 0 <= i < |es|
      ensures EntryIdentity(id, es[i]) && HashIsValid(w, es[i])
      ensures i > 0 ==> es[i].index == es[i - 1].index + 1 <= MAX_U64 && es[i].prev == es[i - 1].hash
    {
      assert LinkOk(w, id, es, tip, i);
      if i > 0 { assert LinkOk(w, id, es, tip, i - 1); }
    }
  }

  /** The manifest a publication returns covers the batch: every entry of the batch that lies above
      the base is the restored entry at its index, and a batch that ends at the base ends in the base's hash. */
  ghost predicate Acknowledges(w: World, store: Store, id: Identity, m: Manifest, es: seq<Entry>)
    requires es != []
  {
    var base := BaseTip(m.base);
    var last := es[|es| - 1];
    && base.index <= last.index <= m.tip.index
    && (last.index == base.index ==> last.hash == base.hash)
    && Restore(w, store, id, m).Ok?
    && (last.index > base.index ==>
          var at := last.index - base.index - 1;
          && at < |Restore(w, store, id, m).value.suffix|
          && Restore(w, store, id, m).value.suffix[at].index == last.index
          && Restore(w, store, id, m).value.suffix[at].hash == last.hash)
  }

  /** The manifest reaches the batch's last index and archives the batch's last hash there. */
  predicate CoversLast(w: World, store: Store, id: Identity, m: Manifest, es: seq<Entry>)
    requires es != []
  {
    var last := es[|es| - 1];
    && BaseTip(m.base).index <= last.index <= m.tip.index
    && ArchivedHashAt(w, store, id, m, last.index) == Ok(last.hash)
  }

  /** An acknowledgement given because nothing was left to publish (directly, or for each flush of a
      coalesced publication) is sound, and whenever it would be sound it is given. */
  lemma CoveredBatchIsAcknowledged(w: World, store: Store, id: Identity, m: Manifest, es: seq<Entry>)
    requires ValidManifest(id, m) && es != []
    requires Restore(w, store, id, m).Ok?
    ensures SuffixStart(w, store, id, m, es) == Ok(None) <==> CoversLast(w, store, id, m, es)
    ensures CoversLast(w, store, id, m, es) <==> Acknowledges(w, store, id, m, es)
  {
    var last := es[|es| - 1];
    if BaseTip(m.base).index < last.index <= m.tip.index {
      ArchivedHashIsRestored(w, store, id, m, last.index);
    }
  }

  /** An acknowledgement given after a successful manifest swap is sound. */
  lemma AppendedBatchIsAcknowledged(w: World, store: Store, id: Identity, m: Manifest, es: seq<Entry>)
    requires ValidManifest(id, m) && es != []
    requires m.tip == EndTip(es, m.tip)
    requires Restore(w, store, id, m).Ok?
    ensures Acknowledges(w, store, id, m, es)
  {
    RestoredIsChained(w, store, id, m);
    var r := Restore(w, store, id, m).value;
    EndsGrow(id, m, 0, |m.segments|);
    if |r.suffix| > 0 {
      assert LinkOk(w, id, r.suffix, BaseTip(m.base), |r.suffix| - 1);
    }
  }

  /** With a collision-free entry hash, an acknowledged batch and the restored checkpoint are the same
      log on every index both hold. */
  lemma AcknowledgedLogsAgree(w: World, store: Store, id: Identity, m: Manifest, es: seq<Entry>, p: nat, q: nat)
    requires CollisionFreeEntryHash(w)
    requires ValidManifest(id, m) && es != [] && ValidPublication(w, id, es)
    requires Acknowledges(w, store, id, m, es)
    requires p < |es| && q < |Restore(w, store, id, m).value.suffix|
    requires es[p].index == Restore(w, store, id, m).value.suffix[q].index
    ensures es[p] == Restore(w, store, id, m).value.suffix[q]
  {
    var base := BaseTip(m.base);
    var r := Restore(w, store, id, m).value;
    RestoredIsChained(w, store, id, m);
    ChainedIsPublication(w, id, r.suffix, base);
    PublicationIndex(w, id, es, |es| - 1);
    PublicationIndex(w, id, es, p);
    PublicationIndex(w, id, r.suffix, q);
    assert LinkOk(w, id, r.suffix, base, 0) && LinkOk(w, id, r.suffix, base, q);
    var at := es[|es| - 1].index - base.index - 1;
    ChainsAgree(w, id, es, |es| - 1, r.suffix, at, |es| - 1 - p);
  }
}
