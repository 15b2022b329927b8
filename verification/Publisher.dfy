/**
 A publisher session: flushes submitted concurrently are queued, coalesced into one batch, published
 together, and answered one by one.
 */
module Publisher {
  import opened Model
  import opened Checkpoint
  import opened Publication
  import opened PublishLoop

  function Flatten(pending: seq<seq<Entry>>): seq<Entry> {
    if pending == [] then [] else pending[0] + Flatten(pending[1..])
  }

  function Above(es: seq<Entry>, published: nat): seq<Entry> {
    if es == [] then [] else (if es[0].index > published then [es[0]] else []) + Above(es[1..], published)
  }

  lemma {:induction false} AboveContents(es: seq<Entry>, published: nat, e: Entry)
    ensures e in Above(es, published) <==> e in es && e.index > published
  {
    if es != [] { AboveContents(es[1..], published, e); }
  }

  ghost predicate SortedByIndex(es: seq<Entry>) {
    forall i, j :: 0 <= i < j < |es| ==> es[i].index <= es[j].index
  }

  ghost predicate StrictlyIncreasing(es: seq<Entry>) {
    forall i, j :: 0 <= i < j < |es| ==> es[i].index < es[j].index
  }

  /** Two different entries were submitted for one unpublished index. */
  ghost predicate Conflicting(es: seq<Entry>, published: nat) {
    exists e, f :: e in es && f in es && e.index == f.index > published && e != f
  }

  function InsertByIndex(e: Entry, es: seq<Entry>): (r: seq<Entry>)
    ensures forall x :: x in r <==> x == e || x in es
    ensures SortedByIndex(es) ==> SortedByIndex(r)
  {
    if es == [] then [e]
    else if e.index <= es[0].index then [e] + es
    else
      var rest := InsertByIndex(e, es[1..]);
      assert forall j :: 0 <= j < |rest| ==> rest[j] in rest && (rest[j] == e || rest[j] in es[1..]);
      [es[0]] + rest
  }

  /** The library sort: some arrangement of the same entries, ordered by index. */
  function SortByIndex(es: seq<Entry>): (sorted: seq<Entry>)
    ensures SortedByIndex(sorted)
    ensures forall e :: e in sorted <==> e in es
  {
    if es == [] then [] else InsertByIndex(es[0], SortByIndex(es[1..]))
  }

  /** Drops repeats from a sorted list; two different entries at one index are an error. */
  method DropRepeats(entries: seq<Entry>) returns (r: Result<seq<Entry>>)
    requires SortedByIndex(entries)
    ensures r.Ok? ==> StrictlyIncreasing(r.value) && forall e :: e in r.value <==> e in entries
    ensures r.Err? ==> exists e, f :: e in entries && f in entries && e.index == f.index && e != f
  {
    var coalesced: seq<Entry> := [];
    for n := 0 to |entries|
      invariant StrictlyIncreasing(coalesced)
      invariant forall e :: e in coalesced <==> e in entries[..n]
      invariant n > 0 ==> coalesced != [] && coalesced[|coalesced| - 1] == entries[n - 1]
      invariant n == 0 ==> coalesced == []
    {
      var entry := entries[n];
      assert entries[..n + 1] == entries[..n] + [entry];
      if coalesced != [] && coalesced[|coalesced| - 1].index == entry.index {
        if coalesced[|coalesced| - 1] != entry {
          assert entries[n - 1] in entries && entries[n] in entries;
          return Err(InvalidCheckpoint);
        }
      } else {
        coalesced := coalesced + [entry];
      }
    }
    assert entries[..|entries|] == entries;
    return Ok(coalesced);
  }

  /** Coalescing succeeds exactly when no two flushes disagree above the published index; its result
      then holds each unpublished submitted entry once, in index order, and nothing else. */
  method Coalesce(pending: seq<seq<Entry>>, published: nat) returns (r: Result<seq<Entry>>)
    ensures r.Err? <==> Conflicting(Flatten(pending), published)
    ensures r.Ok? ==> StrictlyIncreasing(r.value)
    ensures r.Ok? ==> forall e :: e in r.value <==> e in Flatten(pending) && e.index > published
  {
    var all := Flatten(pending);
    var entries := SortByIndex(Above(all, published));
    forall e ensures e in entries <==> e in all && e.index > published {
      AboveContents(all, published, e);
    }
    r := DropRepeats(entries);
    if r.Ok? { NoConflictWhenStrict(all, published, r.value); }
  }

  lemma NoConflictWhenStrict(all: seq<Entry>, published: nat, es: seq<Entry>)
    requires StrictlyIncreasing(es)
    requires forall e :: e in all && e.index > published ==> e in es
    ensures !Conflicting(all, published)
  {
  }

  /** Each flush is answered Ok, with the published manifest, exactly when the publication succeeded and its
      manifest covers the flush's last entry; a failed publication is every flush's answer. */
  method Answer(w: World, store: Store, id: Identity, published: Result<Loaded>, flushes: seq<seq<Entry>>)
    returns (answers: seq<Result<Loaded>>)
    requires forall i :: 0 <= i < |flushes| ==> flushes[i] != []
    ensures |answers| == |flushes|
    ensures forall i :: 0 <= i < |flushes| ==>
              && (answers[i].Ok? <==> published.Ok? && CoversLast(w, store, id, published.value.manifest, flushes[i]))
              && (answers[i].Ok? || published.Err? ==> answers[i] == published)
  {
    answers := [];
    for n := 0 to |flushes|
      invariant |answers| == n
      invariant forall i :: 0 <= i < n ==>
                  && (answers[i].Ok? <==>
                        published.Ok? && CoversLast(w, store, id, published.value.manifest, flushes[i]))
                  && (answers[i].Ok? || published.Err? ==> answers[i] == published)
    {
      if published.Err? {
        answers := answers + [Err(published.error)];
      } else {
        var placed := SuffixStart(w, store, id, published.value.manifest, flushes[n]);
        answers := answers + [if placed == Ok(None) then published
                              else if placed.Ok? then Err(InvalidCheckpoint)
                              else Err(placed.error)];
      }
    }
  }

  /** The session's mutable part: the cached manifest and the queue of flushes. */
  class Session {
    var loaded: Loaded
    var pending: seq<seq<Entry>>

    ghost predicate Valid()
      reads this
    {
      forall i :: 0 <= i < |pending| ==> pending[i] != []
    }

    /** The cached manifest was read from this store. */
    ghost predicate Follows(shared: SharedStore, id: Identity)
      reads this, shared
    {
      ValidManifest(id, loaded.manifest) && loaded.version < shared.version && Current(shared.store, id, loaded)
    }

    constructor (loaded: Loaded)
      ensures Valid() && this.loaded == loaded && pending == []
    {
      this.loaded := loaded;
      pending := [];
    }

    /** A manifest loaded elsewhere replaces the cached one only if it reaches further; one that falls
        behind, or disagrees at the same index, is refused.  The cached tip never goes back. */
    method CacheObserved(id: Identity, observed: Loaded) returns (r: Result<Loaded>)
      requires Valid()
      modifies this
      ensures Valid() && pending == old(pending)
      ensures r.Ok? <==> ValidManifest(id, observed.manifest)
                         && (observed.manifest.tip == old(loaded).manifest.tip
                             || observed.manifest.tip.index > old(loaded).manifest.tip.index)
      ensures r.Err? ==> loaded == old(loaded)
      ensures r.Ok? ==> r.value == loaded && loaded.manifest.tip == observed.manifest.tip
      ensures old(loaded).manifest.tip.index <= loaded.manifest.tip.index
      ensures loaded == if r.Ok? && observed.manifest.tip.index > old(loaded).manifest.tip.index then observed
                        else old(loaded)
    {
      var valid := ValidateManifest(id, observed.manifest);
      if valid.Err? { return Err(valid.error); }
      var current, seen := loaded.manifest.tip, observed.manifest.tip;
      if seen.index == current.index && seen.hash != current.hash { return Err(InvalidCheckpoint); }
      if seen.index < current.index { return Err(InvalidCheckpoint); }
      if seen.index > current.index { loaded := observed; }
      return Ok(loaded);
    }

    /** The front of a publication: a batch that is no chain is refused, an empty one answered from the
        cache, any other queued. */
    method Submit(w: World, id: Identity, entries: seq<Entry>) returns (answer: Option<Result<Loaded>>)
      requires Valid()
      modifies this
      ensures Valid() && loaded == old(loaded)
      ensures answer.None? <==> entries != [] && ValidPublication(w, id, entries)
      ensures pending == old(pending) + (if answer.None? then [entries] else [])
      ensures entries == [] ==> answer == Some(Ok(loaded))
      ensures answer.Some? && answer.value.Ok? ==> entries == []
    {
      if !ValidPublication(w, id, entries) { return Some(Err(InvalidCheckpoint)); }
      if entries == [] { return Some(Ok(loaded)); }
      pending := pending + [entries];
      return None;
    }

    /** One drive of the queue, over a store that others write to meanwhile.  The unpublished entries of the
        queue, each once and in order, are published by the publication loop, which fails only for a stated
        reason; the queue is emptied, the cache follows a successful publication, and a flush is answered Ok,
        with that manifest, exactly when the publication succeeded and its manifest covers the flush's last
        entry, and with the publication's error when that failed. */
    method DriveFlushes(w: World, shared: SharedStore, id: Identity)
      returns (answers: seq<Result<Loaded>>, ghost batch: seq<Entry>, ghost published: Result<Loaded>,
               ghost replaced: Option<Manifest>, ghost why: Cause)
      requires Valid() && shared.Valid() && Follows(shared, id)
      modifies this, shared
      ensures Valid() && shared.Valid() && pending == [] && |answers| == |old(pending)|
      ensures StrictlyIncreasing(batch)
      ensures Conflicting(Flatten(old(pending)), old(loaded).manifest.tip.index) ==> published.Err? && batch == []
      ensures !Conflicting(Flatten(old(pending)), old(loaded).manifest.tip.index) ==>
                forall e :: e in batch <==> e in Flatten(old(pending)) && e.index > old(loaded).manifest.tip.index
      ensures published.Ok? ==>
                if batch == [] then published.value == old(loaded) && replaced.None?
                else Published(w, shared.store, id, published.value.manifest, batch)
      ensures published.Err? && batch == [] ==> Conflicting(Flatten(old(pending)), old(loaded).manifest.tip.index)
      ensures published.Err? && batch != [] ==>
                PublishFails(w, shared.trail, |old(shared.trail)| - 1, id, old(loaded).manifest, batch,
                             published.error, why)
      ensures replaced.Some? ==>
                && published.Ok? && Extends(replaced.value, published.value.manifest)
                && SwappedIn(shared.trail, |old(shared.trail)|, id, replaced.value, published.value)
      ensures loaded == (if published.Ok? then published.value else old(loaded))
      ensures forall i :: 0 <= i < |answers| ==>
                && old(pending)[i] != []
                && (answers[i].Ok? <==>
                      published.Ok? && CoversLast(w, shared.store, id, loaded.manifest, old(pending)[i]))
                && (answers[i].Ok? ==> answers[i].value == loaded)
                && (published.Err? ==> answers[i] == published)
    {
      var taken := pending;
      pending := [];
      var coalesced := Coalesce(taken, loaded.manifest.tip.index);
      batch := if coalesced.Ok? then coalesced.value else [];
      replaced, why := None, Overtaken;
      var outcome: Result<Loaded>;
      if coalesced.Err? {
        outcome := Err(coalesced.error);
      } else if coalesced.value == [] {
        outcome := Ok(loaded);
      } else {
        outcome, replaced, why := shared.PublishCommitted(w, id, coalesced.value, loaded);
      }
      published := outcome;
      if outcome.Ok? { loaded := outcome.value; }
      answers := Answer(w, shared.store, id, outcome, taken);
    }
  }
}
