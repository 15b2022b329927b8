/**
 Where plans come from, and how long leases last, in whole runs of the archive.  Every stored plan was made from
 things that were so at some moment: a control object in force, a stored root manifest, listed object versions.
 And a lease that was granted is live until its time is over, unless a call names it: that is what a caller has to
 see to for the lease hypothesis to hold.
 */
module ArchivePlans {
  import opened Model
  import opened Checkpoint
  import opened GcControl
  import GcHistory
  import opened GcLaws
  import opened GcPlanning
  import opened Archive
  import opened ArchiveSafety
  import opened ArchiveTheorems
  import opened ArchiveDurability

  // ---------------------------------------------------------------- what a planner has seen

  predicate IsListed(store: Store, id: Identity, m: Meta) {
    m.key.id == id && m.key in store && store[m.key].version == m.version && store[m.key].modified == m.modified
  }

  ghost predicate WasListed(ss: seq<State>, i: nat, id: Identity, m: Meta)
    requires i < |ss|
  {
    exists k :: 0 <= k <= i && IsListed(ss[k].sh.store, id, m)
  }

  ghost predicate WasInForce(ss: seq<State>, i: nat, c: Control)
    requires i < |ss|
  {
    exists k :: 0 <= k <= i && ss[k].sh.h.control == c
  }

  /** All a planner works from was so at some moment up to the i-th. */
  ghost predicate Observed(ss: seq<State>, i: nat, p: Planner)
    requires i < |ss|
  {
    && p.now <= ss[i].sh.h.clock && WasInForce(ss, i, p.control)
    && (p.root.Some? ==> WasStored(ss, i, p.policy.root, p.root.value))
    && forall id, m :: id in p.listings && m in p.listings[id] ==> WasListed(ss, i, id, m)
  }

  lemma ObservedStill(ss: seq<State>, i: nat, p: Planner)
    requires i + 1 < |ss| && Observed(ss, i, p) && ss[i].sh.h.clock <= ss[i + 1].sh.h.clock
    ensures Observed(ss, i + 1, p)
  {
    forall id, m | id in p.listings && m in p.listings[id] ensures WasListed(ss, i + 1, id, m) {
      assert WasListed(ss, i, id, m);
    }
  }

  lemma PlannerObserves(w: World, ss: seq<State>, i: nat, p: Planner, p': Planner, a: PlanAction)
    requires i + 1 < |ss| && PlanStep(w, ss[i].sh, ss[i + 1].sh, p, p', a) && Observed(ss, i, p)
    ensures Observed(ss, i, p')
  {
    match a
    case PlanReadRoot =>
      assert HasManifest(ss[i].sh.store, p.policy.root, p'.root.value);
    case PlanPage(id, metas) =>
      forall g, m | g in p'.listings && m in p'.listings[g] ensures WasListed(ss, i, g, m) {
        if g == id && m in metas {
          assert IsListed(ss[i].sh.store, id, m);
        } else {
          assert g in p.listings && m in p.listings[g];
        }
      }
    case PlanFinish =>
  }

  ghost predicate ProcObserved(ss: seq<State>, i: nat, p: Proc)
    requires i < |ss|
  {
    p.PlanProc? ==> Observed(ss, i, p.planner)
  }

  lemma ProcStaysObserved(w: World, ss: seq<State>, ls: seq<Label>, i: nat, pid: nat)
    requires i + 1 < |ss| && i < |ls| && Next(w, ss[i], ss[i + 1], ls[i]) && pid in ss[i + 1].procs
    requires pid in ss[i].procs ==> ProcObserved(ss, i, ss[i].procs[pid])
    ensures ProcObserved(ss, i + 1, ss[i + 1].procs[pid])
  {
    var q := ss[i + 1].procs[pid];
    if q.PlanProc? {
      ClockRuns(w, ss[i], ss[i + 1], ls[i]);
      if ls[i].Act? && ls[i].pid == pid {
        PlannerObserves(w, ss, i, ss[i].procs[pid].planner, q.planner, ls[i].action.plan);
      } else if ls[i].Begin? && ls[i].pid == pid {
        assert ss[i].sh.h.control == q.planner.control;
      }
      ObservedStill(ss, i, q.planner);
    }
  }

  lemma {:induction false} RunObserves(w: World, ss: seq<State>, ls: seq<Label>, i: nat)
    requires IsRun(w, ss, ls) && i < |ss|
    ensures forall pid :: pid in ss[i].procs ==> ProcObserved(ss, i, ss[i].procs[pid])
  {
    if i > 0 {
      RunObserves(w, ss, ls, i - 1);
      forall pid | pid in ss[i].procs ensures ProcObserved(ss, i, ss[i].procs[pid]) {
        ProcStaysObserved(w, ss, ls, i - 1, pid);
      }
    }
  }

  // ---------------------------------------------------------------- where plans come from

  /** The step is a planner's last, and makes this plan; every active generation was listed. */
  ghost predicate Makes(w: World, s: State, l: Label, plan: Plan) {
    && l.Act? && l.action == ByPlan(PlanFinish) && l.pid in s.procs && s.procs[l.pid].PlanProc?
    && var p := s.procs[l.pid].planner;
       && p.root.Some? && PlanGc(w, p.policy, p.control, p.root.value, p.listings, p.now) == Ok(plan)
       && forall e :: e in ActiveOnly(p.control.generations) ==> e.identity in p.listings
  }

  lemma OthersMakeNone(w: World, sh: Shared, sh': Shared, p: Proc, p': Proc, a: Action)
    requires ActorStep(w, sh, sh', p, p', a) && !(a.ByPlan? && a.plan.PlanFinish?)
    ensures sh'.plans == sh.plans
  {
    if a.ByExec? {
      ExecMakesNone(w, sh, sh', p.exec, p'.exec, a.exec);
    } else if a.ByCopy? {
      CopyMakesNone(w, sh, sh', p.copier, p'.copier, a.copy);
    } else if a.ByPub? {
      PubMakesNone(w, sh, sh', p.pub, p'.pub, a.pub);
    } else if a.BySnap? {
      SnapMakesNone(w, sh, sh', p.snap, p'.snap, a.snap);
    } else if a.ByRead? {
      ReadMakesNone(w, sh, sh', p.read, p'.read, a.read);
    } else {
      ReadingMakesNone(w, sh, sh', p.planner, p'.planner, a.plan);
    }
  }

  lemma SnapMakesNone(w: World, sh: Shared, sh': Shared, p: Snap, p': Snap, a: SnapAction)
    requires SnapStep(w, sh, sh', p, p', a)
    ensures sh'.plans == sh.plans
  {
  }

  lemma ReadMakesNone(w: World, sh: Shared, sh': Shared, p: Read, p': Read, a: ReadAction)
    requires ReadStep(w, sh, sh', p, p', a)
    ensures sh'.plans == sh.plans
  {
  }

  lemma ReadingMakesNone(w: World, sh: Shared, sh': Shared, p: Planner, p': Planner, a: PlanAction)
    requires PlanStep(w, sh, sh', p, p', a) && !a.PlanFinish?
    ensures sh'.plans == sh.plans
  {
  }

  lemma ExecMakesNone(w: World, sh: Shared, sh': Shared, p: Exec, p': Exec, a: ExecAction)
    requires ExecStep(w, sh, sh', p, p', a)
    ensures sh'.plans == sh.plans
  {
  }

  lemma CopyMakesNone(w: World, sh: Shared, sh': Shared, p: Copier, p': Copier, a: CopyAction)
    requires CopyStep(w, sh, sh', p, p', a)
    ensures sh'.plans == sh.plans
  {
  }

  lemma PubMakesNone(w: World, sh: Shared, sh': Shared, p: Pub, p': Pub, a: PubAction)
    requires PubStep(w, sh, sh', p, p', a)
    ensures sh'.plans == sh.plans
  {
  }

  lemma NewPlanIsMade(w: World, s: State, s': State, l: Label, h: Hash)
    requires Next(w, s, s', l) && h in s'.sh.plans && h !in s.sh.plans
    ensures Makes(w, s, l, s'.sh.plans[h])
  {
    if l.Act? && !(l.action.ByPlan? && l.action.plan.PlanFinish?) {
      OthersMakeNone(w, s.sh, s'.sh, s.procs[l.pid], s'.procs[l.pid], l.action);
    }
  }

  lemma {:induction false} FirstStored(ss: seq<State>, i: nat, h: Hash) returns (j: nat)
    requires i < |ss| && h in ss[i].sh.plans && h !in ss[0].sh.plans
    ensures j < i && h in ss[j + 1].sh.plans && h !in ss[j].sh.plans
    decreases i
  {
    if h in ss[i - 1].sh.plans {
      j := FirstStored(ss, i - 1, h);
    } else {
      j := i - 1;
    }
  }

  lemma MakingStep(w: World, ss: seq<State>, ls: seq<Label>, i: nat, h: Hash) returns (j: nat)
    requires IsRun(w, ss, ls) && i < |ss| && h in ss[i].sh.plans
    ensures j < i && Makes(w, ss[j], ls[j], ss[i].sh.plans[h])
  {
    j := FirstStored(ss, i, h);
    NewPlanIsMade(w, ss[j], ss[j + 1], ls[j], h);
    BooksNeverChange(w, ss, ls, j + 1, i);
  }

  /** Every stored plan was made by one planner's last step, from a control object that had been in force, a root
      manifest that had been stored and object versions that had been there, all active generations listed. */
  lemma EveryPlanWasMade(w: World, ss: seq<State>, ls: seq<Label>, i: nat, h: Hash) returns (j: nat, p: Planner)
    requires IsRun(w, ss, ls) && i < |ss| && h in ss[i].sh.plans
    ensures j < i && Observed(ss, j, p) && p.root.Some?
    ensures PlanGc(w, p.policy, p.control, p.root.value, p.listings, p.now) == Ok(ss[i].sh.plans[h])
    ensures forall e :: e in ActiveOnly(p.control.generations) ==> e.identity in p.listings
  {
    j := MakingStep(w, ss, ls, i, h);
    p := ss[j].procs[ls[j].pid].planner;
    RunObserves(w, ss, ls, j);
    assert ProcObserved(ss, j, ss[j].procs[ls[j].pid]);
  }

  // ---------------------------------------------------------------- how long a lease lasts

  /** The control operation of a step, whoever performs it. */
  function OpAt(s: State, l: Label): Option<ControlOp> {
    match l
    case Call(op) => Some(op)
    case Act(pid, a) => if pid in s.procs then OpOf(s.sh, s.procs[pid], a) else None
    case _ => None
  }

  /** The step is a call that names the lease. */
  predicate Names(s: State, l: Label, id: nat) {
    OpAt(s, l).Some? && OnLease(GcHistory.Do(OpAt(s, l).value), id)
  }

  lemma StepIsControlStep(w: World, s: State, s': State, l: Label)
    requires Next(w, s, s', l)
    ensures s'.sh.h.control == s.sh.h.control
            || (OpAt(s, l).Some? && GcHistory.Step(w, s.sh.h, s'.sh.h, GcHistory.Do(OpAt(s, l).value)))
  {
    if l.Act? { ActMovesHistory(w, s.sh, s'.sh, s.procs[l.pid], s'.procs[l.pid], l.action); }
  }

  /** The plan a step clears was made in the past. */
  lemma ClearedPlanIsPast(w: World, ss: seq<State>, ls: seq<Label>, k: nat)
    requires IsRun(w, ss, ls) && k < |ls| && OpAt(ss[k], ls[k]).Some?
    ensures PlanMadeBefore(GcHistory.Do(OpAt(ss[k], ls[k]).value), ss[k].sh.h.clock)
  {
    assert Next(w, ss[k], ss[k + 1], ls[k]);
    var op := OpAt(ss[k], ls[k]).value;
    if op.ClearBarrier? {
      var h := ss[k].procs[ls[k].pid].exec.planHash;
      var j, p := EveryPlanWasMade(w, ss, ls, k, h);
      PlanRecords(w, p.policy, p.control, p.root.value, p.listings, p.now, 0);
      ClockNeverBack(w, ss, ls, j, k);
    }
  }

  lemma {:induction false} ClockNeverBack(w: World, ss: seq<State>, ls: seq<Label>, i: nat, j: nat)
    requires IsRun(w, ss, ls) && i <= j < |ss|
    ensures ss[i].sh.h.clock <= ss[j].sh.h.clock
    decreases j
  {
    if i < j {
      ClockNeverBack(w, ss, ls, i, j - 1);
      ClockRuns(w, ss[j - 1], ss[j], ls[j - 1]);
    }
  }

  lemma LeaseLastsOneStep(w: World, s: State, s': State, l: Label, lease: Lease)
    requires Next(w, s, s', l) && lease in s.sh.h.control.leases && s.sh.h.clock < lease.expires
    requires !Names(s, l, lease.id)
    requires OpAt(s, l).Some? ==> PlanMadeBefore(GcHistory.Do(OpAt(s, l).value), s.sh.h.clock)
    ensures lease in s'.sh.h.control.leases
  {
    StepIsControlStep(w, s, s', l);
    if s'.sh.h.control != s.sh.h.control {
      LeaseStandsOneStep(w, s.sh.h, s'.sh.h, GcHistory.Do(OpAt(s, l).value), lease);
    }
  }

  lemma {:induction false} LeaseChain(ss: seq<State>, i: nat, j: nat, lease: Lease)
    requires i <= j < |ss| && lease in ss[i].sh.h.control.leases && ss[j].sh.h.clock < lease.expires
    requires forall k :: i <= k <= j ==> ss[k].sh.h.clock <= ss[j].sh.h.clock
    requires forall k :: i <= k < j && lease in ss[k].sh.h.control.leases && ss[k].sh.h.clock < lease.expires ==>
               lease in ss[k + 1].sh.h.control.leases
    ensures lease in ss[j].sh.h.control.leases
    decreases j - i
  {
    if i < j { LeaseChain(ss, i + 1, j, lease); }
  }

  /** A lease is live until its time is over, unless a call names it: whoever finishes within the duration of its
      last renewal has held its lease throughout. */
  lemma LeaseLasts(w: World, ss: seq<State>, ls: seq<Label>, i: nat, j: nat, lease: Lease)
    requires IsRun(w, ss, ls) && i <= j < |ss| && lease in ss[i].sh.h.control.leases
    requires ss[j].sh.h.clock < lease.expires && forall k :: i <= k < j ==> !Names(ss[k], ls[k], lease.id)
    ensures lease in ss[j].sh.h.control.leases && HasLiveLease(ss[j].sh, lease.id)
  {
    forall k | i <= k <= j ensures ss[k].sh.h.clock <= ss[j].sh.h.clock { ClockNeverBack(w, ss, ls, k, j); }
    forall k | i <= k < j && lease in ss[k].sh.h.control.leases && ss[k].sh.h.clock < lease.expires
      ensures lease in ss[k + 1].sh.h.control.leases
    {
      if OpAt(ss[k], ls[k]).Some? { ClearedPlanIsPast(w, ss, ls, k); }
      LeaseLastsOneStep(w, ss[k], ss[k + 1], ls[k], lease);
    }
    LeaseChain(ss, i, j, lease);
  }
}
