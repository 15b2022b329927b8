/**
 What an acknowledged publication is worth.  When it returns, a manifest that reaches its last entry has been
 stored; from then on, until a copier withdraws the generation's manifest, the stored checkpoint restores to
 the log at least up to that entry.
 */
module ArchiveDurability {
  import opened Model
  import opened Checkpoint
  import opened GcControl
  import opened Archive
  import opened ArchiveProof
  import opened ArchiveTheorems
  import opened ArchiveLog

  /** The manifest was the stored one in some state up to the i-th. */
  ghost predicate WasStored(ss: seq<State>, i: nat, id: Identity, m: Manifest)
    requires i < |ss|
  {
    exists k :: 0 <= k <= i && HasManifest(ss[k].sh.store, id, m)
  }

  ghost predicate LoadedWasStored(ss: seq<State>, i: nat, p: Proc)
    requires i < |ss|
  {
    match p
    case PubProc(x) => x.loaded.Some? ==> WasStored(ss, i, x.id, x.loaded.value.manifest)
    case SnapProc(x) => x.loaded.Some? ==> WasStored(ss, i, x.id, x.loaded.value.manifest)
    case _ => true
  }

  lemma StillWasStored(ss: seq<State>, i: nat, p: Proc)
    requires i + 1 < |ss| && LoadedWasStored(ss, i, p)
    ensures LoadedWasStored(ss, i + 1, p)
  {
  }

  lemma StoredNow(ss: seq<State>, k: nat, i: nat, id: Identity, m: Manifest)
    requires k <= i < |ss| && HasManifest(ss[k].sh.store, id, m)
    ensures WasStored(ss, i, id, m)
  {
  }

  lemma PubLoadsStored(w: World, ss: seq<State>, i: nat, p: Pub, p': Pub, a: PubAction)
    requires i + 1 < |ss| && PubStep(w, ss[i].sh, ss[i + 1].sh, p, p', a)
    requires LoadedWasStored(ss, i, PubProc(p))
    ensures LoadedWasStored(ss, i + 1, PubProc(p'))
  {
    StillWasStored(ss, i, PubProc(p));
    if a.PubLoad? { StoredNow(ss, i, i + 1, p.id, p'.loaded.value.manifest); }
    if a.PubInit? || a.PubSwap? || a.PubMigrateSwap? { StoredNow(ss, i + 1, i + 1, p.id, p'.loaded.value.manifest); }
  }

  lemma SnapLoadsStored(w: World, ss: seq<State>, i: nat, p: Snap, p': Snap, a: SnapAction)
    requires i + 1 < |ss| && SnapStep(w, ss[i].sh, ss[i + 1].sh, p, p', a)
    requires LoadedWasStored(ss, i, SnapProc(p))
    ensures LoadedWasStored(ss, i + 1, SnapProc(p'))
  {
    StillWasStored(ss, i, SnapProc(p));
    if a.SnapLoad? { StoredNow(ss, i, i + 1, p.id, p'.loaded.value.manifest); }
    if a.SnapSwap? { StoredNow(ss, i + 1, i + 1, p.id, p'.loaded.value.manifest); }
  }

  lemma BeginsStored(ss: seq<State>, i: nat, p: Proc)
    requires i < |ss| && CanBegin(ss[i], p)
    requires forall q :: q in ss[i].procs ==> LoadedWasStored(ss, i, ss[i].procs[q])
    ensures LoadedWasStored(ss, i, p)
  {
    match p
    case PubProc(x) =>
      if x.loaded.Some? && HasManifest(ss[i].sh.store, x.id, x.loaded.value.manifest) {
        StoredNow(ss, i, i, x.id, x.loaded.value.manifest);
      }
    case SnapProc(x) =>
      if x.loaded.Some? && HasManifest(ss[i].sh.store, x.id, x.loaded.value.manifest) {
        StoredNow(ss, i, i, x.id, x.loaded.value.manifest);
      }
    case _ =>
  }

  lemma StepLoadsStored(w: World, ss: seq<State>, ls: seq<Label>, i: nat, pid: nat)
    requires i + 1 < |ss| && i < |ls| && Next(w, ss[i], ss[i + 1], ls[i]) && pid in ss[i + 1].procs
    requires forall q :: q in ss[i].procs ==> LoadedWasStored(ss, i, ss[i].procs[q])
    ensures LoadedWasStored(ss, i + 1, ss[i + 1].procs[pid])
  {
    var l := ls[i];
    if l.Act? && l.pid == pid && (l.action.ByPub? || l.action.BySnap?) {
      match l.action
      case ByPub(x) => PubLoadsStored(w, ss, i, ss[i].procs[pid].pub, ss[i + 1].procs[pid].pub, x);
      case BySnap(x) => SnapLoadsStored(w, ss, i, ss[i].procs[pid].snap, ss[i + 1].procs[pid].snap, x);
    } else if l.Begin? && l.pid == pid {
      BeginsStored(ss, i, l.proc);
      StillWasStored(ss, i, l.proc);
    } else if !(l.Act? && l.pid == pid) {
      StillWasStored(ss, i, ss[i].procs[pid]);
    }
  }

  /** Every manifest a publisher works from was the stored one at some earlier moment of the run. */
  lemma {:induction false} RunLoadsStored(w: World, ss: seq<State>, ls: seq<Label>, i: nat)
    requires IsRun(w, ss, ls) && i < |ss|
    ensures forall pid :: pid in ss[i].procs ==> LoadedWasStored(ss, i, ss[i].procs[pid])
  {
    if i > 0 {
      RunLoadsStored(w, ss, ls, i - 1);
      forall pid | pid in ss[i].procs ensures LoadedWasStored(ss, i, ss[i].procs[pid]) {
        StepLoadsStored(w, ss, ls, i - 1, pid);
      }
    }
  }

  /** A step with which a publication returns Ok. */
  predicate Acknowledging(l: Label) {
    l.Act? && (l.action == ByPub(PubSwap) || l.action == ByPub(PubCovered))
  }

  /** When a publication returns, some manifest stored by then reaches its last entry. */
  lemma ReachedWhenAcknowledged(w: World, ss: seq<State>, ls: seq<Label>, i: nat) returns (k: nat)
    requires IsRun(w, ss, ls) && i < |ls| && Acknowledging(ls[i]) && ls[i].pid in ss[i].procs
    requires ss[i].procs[ls[i].pid].PubProc? && ss[i].procs[ls[i].pid].pub.entries != []
    ensures k <= i + 1 && (ls[i].action == ByPub(PubSwap) ==> k == i + 1)
    ensures var p := ss[i].procs[ls[i].pid].pub; Reaches(ss[k].sh.store, p.id, p.entries)
  {
    var p := ss[i].procs[ls[i].pid].pub;
    assert Next(w, ss[i], ss[i + 1], ls[i]);
    if ls[i].action == ByPub(PubSwap) {
      k := i + 1;
    } else {
      RunLoadsStored(w, ss, ls, i);
      k :| 0 <= k <= i && HasManifest(ss[k].sh.store, p.id, p.loaded.value.manifest);
    }
  }

  /** The stored manifest reaches the last entry of the batch. */
  predicate Reaches(store: Store, id: Identity, es: seq<Entry>)
    requires es != []
  {
    && ManifestKey(id) in store && store[ManifestKey(id)].blob.ManifestBlob?
    && es[|es| - 1].index <= store[ManifestKey(id)].blob.manifest.tip.index
  }

  /** The checkpoint restores, to the log at least up to the last entry of the batch. */
  ghost predicate Durable(w: World, log: Log, store: Store, id: Identity, es: seq<Entry>)
    requires es != []
  {
    && ManifestKey(id) in store && store[ManifestKey(id)].blob.ManifestBlob?
    && var m := store[ManifestKey(id)].blob.manifest;
       var r := Restore(w, store, id, m);
       r.Ok? && IsCheckpointOf(log(id), BaseTip(m.base).index, r.value) && es[|es| - 1].index <= r.value.tip.index
  }

  lemma ReachedStaysDurable(w: World, log: Log, ss: seq<State>, ls: seq<Label>, k: nat, j: nat, id: Identity,
                            es: seq<Entry>)
    requires WorldOk(w) && LogRun(w, log, ss, ls) && Disciplined(w, {}, ss, ls) && k <= j < |ss| && es != []
    requires Reaches(ss[k].sh.store, id, es) && NotWithdrawn(ss, ls, k, j, id)
    requires !IsRetired(ss[j].sh.h.control, id)
    ensures Durable(w, log, ss[j].sh.store, id, es)
  {
    if k < j { ManifestsOnlyExtend(w, ss, ls, k, j, id); }
    EveryCheckpointIsTheLog(w, log, ss, ls, j, id);
  }

  /** An acknowledged publication is durable.  There was a moment, by the time it returned, when the stored
      manifest reached its last entry; and unless a copier has withdrawn the generation's manifest since then,
      or the generation has been retired, the checkpoint of every later state restores to the log at least up
      to that entry. */
  lemma AcknowledgedIsDurable(w: World, log: Log, ss: seq<State>, ls: seq<Label>, i: nat) returns (k: nat)
    requires WorldOk(w) && LogRun(w, log, ss, ls) && Disciplined(w, {}, ss, ls) && i < |ls|
    requires Acknowledging(ls[i]) && ls[i].pid in ss[i].procs
    requires ss[i].procs[ls[i].pid].PubProc? && ss[i].procs[ls[i].pid].pub.entries != []
    ensures k <= i + 1 && (ls[i].action == ByPub(PubSwap) ==> k == i + 1)
    ensures var p := ss[i].procs[ls[i].pid].pub;
            && Reaches(ss[k].sh.store, p.id, p.entries)
            && forall j :: i < j < |ss| && NotWithdrawn(ss, ls, k, j, p.id) && !IsRetired(ss[j].sh.h.control, p.id) ==>
                 Durable(w, log, ss[j].sh.store, p.id, p.entries)
  {
    var p := ss[i].procs[ls[i].pid].pub;
    k := ReachedWhenAcknowledged(w, ss, ls, i);
    forall j | i < j < |ss| && NotWithdrawn(ss, ls, k, j, p.id) && !IsRetired(ss[j].sh.h.control, p.id)
      ensures Durable(w, log, ss[j].sh.store, p.id, p.entries)
    {
      ReachedStaysDurable(w, log, ss, ls, k, j, p.id, p.entries);
    }
  }

  /** What can be checked when it returns: if the stored manifest then reaches the last entry and no copier
      threatens it, the acknowledgement holds for good. */
  lemma SettledAcknowledgementIsDurable(w: World, log: Log, ss: seq<State>, ls: seq<Label>, i: nat, j: nat,
                                        id: Identity, es: seq<Entry>)
    requires WorldOk(w) && LogRun(w, log, ss, ls) && Disciplined(w, {}, ss, ls) && i <= j < |ss| && es != []
    requires Reaches(ss[i].sh.store, id, es) && Settled(ss[i], id)
    requires !IsRetired(ss[j].sh.h.control, id)
    ensures Durable(w, log, ss[j].sh.store, id, es)
  {
    SettledForGood(w, ss, ls, i, j, id);
    ReachedStaysDurable(w, log, ss, ls, i, j, id, es);
  }

  /** The condition on withdrawals is exact.  While the generation is in force, what the stored manifest
      reaches stays durable in every later state up to the j-th if and only if no step in between withdraws
      the manifest. */
  lemma DurableExactlyUntilWithdrawn(w: World, log: Log, ss: seq<State>, ls: seq<Label>, k: nat, j: nat, id: Identity,
                                     es: seq<Entry>)
    requires WorldOk(w) && LogRun(w, log, ss, ls) && Disciplined(w, {}, ss, ls) && k < j < |ss| && es != []
    requires Reaches(ss[k].sh.store, id, es)
    requires forall n :: k <= n <= j ==> !IsRetired(ss[n].sh.h.control, id)
    ensures (forall n :: k <= n <= j ==> Durable(w, log, ss[n].sh.store, id, es)) <==> NotWithdrawn(ss, ls, k, j, id)
  {
    if NotWithdrawn(ss, ls, k, j, id) {
      forall n | k <= n <= j ensures Durable(w, log, ss[n].sh.store, id, es) {
        ReachedStaysDurable(w, log, ss, ls, k, n, id, es);
      }
    } else {
      var n :| k <= n < j && IsWithdrawal(ss[n], ls[n], id);
      WithdrawalLoses(w, ss, ls, n, id);
      assert !Durable(w, log, ss[n + 1].sh.store, id, es);
    }
  }
}
