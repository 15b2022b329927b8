/**
 What a collection's books say is what happened.  Evidence of a deletion goes back to the very step that took the
 object out of the store, evidence of an absence to a step that found none there; a report is made of such
 evidence; and nothing of a plan is executed before its grace is over.
 */
module ArchiveEvidence {
  import opened Model
  import opened GcControl
  import opened Archive
  import opened ArchiveSafety
  import opened ArchiveProof
  import opened ArchiveTheorems

  // ---------------------------------------------------------------- deletions and their evidence

  predicate HasNext(sh: Shared, p: Exec, results: seq<Evidence>) {
    p.planHash in sh.plans && |results| < |sh.plans[p.planHash].candidates|
  }

  function NextOf(sh: Shared, p: Exec, results: seq<Evidence>): Candidate
    requires HasNext(sh, p, results)
  {
    sh.plans[p.planHash].candidates[|results|]
  }

  /** An executor of the plan, whose next candidate is this version, tries to delete it, with this outcome: the
      object was there at that version and is there no more, or was not there. */
  predicate Attempts(s: State, s': State, l: Label, planHash: Hash, key: Key, version: nat, outcome: Outcome) {
    && l.Act? && l.action == ByExec(ExecDelete) && l.pid in s.procs && s.procs[l.pid].ExecProc?
    && Tries(s.sh, s.procs[l.pid].exec, planHash, key, version)
    && match outcome
       case Deleted => key in s.sh.store && s.sh.store[key].version == version && key !in s'.sh.store
       case AlreadyMissing => key !in s.sh.store
  }

  predicate Tries(sh: Shared, p: Exec, planHash: Hash, key: Key, version: nat) {
    && p.planHash == planHash && p.pc.ExecSweeping? && HasNext(sh, p, p.pc.results)
    && NextOf(sh, p, p.pc.results).key == key && NextOf(sh, p, p.pc.results).version == version
  }

  /** One of the first i steps was such an attempt. */
  ghost predicate Witnessed(ss: seq<State>, ls: seq<Label>, i: nat, planHash: Hash, key: Key, version: nat,
                            outcome: Outcome)
    requires |ss| == |ls| + 1 && i <= |ls|
  {
    exists j :: 0 <= j < i && Attempts(ss[j], ss[j + 1], ls[j], planHash, key, version, outcome)
  }

  /** What an executor that has tried its next candidate, and not recorded it yet, knows. */
  ghost predicate ExecWitnessed(ss: seq<State>, ls: seq<Label>, i: nat, p: Proc)
    requires |ss| == |ls| + 1 && i <= |ls|
  {
    p.ExecProc? && p.exec.pc.ExecDeleted? ==>
      && HasNext(ss[i].sh, p.exec, p.exec.pc.results)
      && var c := NextOf(ss[i].sh, p.exec, p.exec.pc.results);
         Witnessed(ss, ls, i, p.exec.planHash, c.key, c.version, p.exec.pc.outcome)
  }

  ghost predicate EvidenceWitnessed(ss: seq<State>, ls: seq<Label>, i: nat)
    requires |ss| == |ls| + 1 && i <= |ls|
  {
    forall at :: at in ss[i].sh.evidence ==>
      var e := ss[i].sh.evidence[at];
      e.planHash == at.0 && e.key == at.1 && Witnessed(ss, ls, i, at.0, at.1, e.version, e.outcome)
  }

  lemma WitnessedStill(ss: seq<State>, ls: seq<Label>, i: nat, planHash: Hash, key: Key, version: nat, outcome: Outcome)
    requires |ss| == |ls| + 1 && i < |ls| && Witnessed(ss, ls, i, planHash, key, version, outcome)
    ensures Witnessed(ss, ls, i + 1, planHash, key, version, outcome)
  {
  }

  /** Only an attempt brings an executor there. */
  lemma DeletedByAttempt(w: World, sh: Shared, sh': Shared, p: Exec, p': Exec, a: ExecAction)
    requires ExecStep(w, sh, sh', p, p', a) && p'.pc.ExecDeleted?
    ensures a.ExecDelete? && p.pc.ExecSweeping? && p'.planHash == p.planHash && sh'.plans == sh.plans
    ensures p'.pc.results == p.pc.results && HasNext(sh, p, p.pc.results)
    ensures var c := NextOf(sh, p, p.pc.results);
            match p'.pc.outcome
            case Deleted => c.key in sh.store && sh.store[c.key].version == c.version && c.key !in sh'.store
            case AlreadyMissing => c.key !in sh.store
  {
  }

  /** Only recording the outcome of an attempt adds evidence. */
  lemma EvidenceByRecord(w: World, sh: Shared, sh': Shared, p: Exec, p': Exec, a: ExecAction, at: (Hash, Key))
    requires ExecStep(w, sh, sh', p, p', a) && at in sh'.evidence && at !in sh.evidence
    ensures a.ExecRecord? && p.pc.ExecDeleted? && HasNext(sh, p, p.pc.results)
    ensures var c := NextOf(sh, p, p.pc.results);
            && at == (p.planHash, c.key)
            && sh'.evidence[at] == Evidence(p.planHash, c.key, c.version, p.pc.outcome, p.now)
  {
  }

  lemma OthersAddNoEvidence(w: World, sh: Shared, sh': Shared, p: Proc, p': Proc, a: Action)
    requires ActorStep(w, sh, sh', p, p', a) && !a.ByExec?
    ensures sh'.evidence == sh.evidence && sh'.reports == sh.reports
  {
    if a.ByPub? {
      PubAddsNoEvidence(w, sh, sh', p.pub, p'.pub, a.pub);
    } else if a.BySnap? {
      SnapAddsNoEvidence(w, sh, sh', p.snap, p'.snap, a.snap);
    } else if a.ByRead? {
      ReadAddsNoEvidence(w, sh, sh', p.read, p'.read, a.read);
    } else if a.ByCopy? {
      CopyAddsNoEvidence(w, sh, sh', p.copier, p'.copier, a.copy);
    }
  }

  lemma PubAddsNoEvidence(w: World, sh: Shared, sh': Shared, p: Pub, p': Pub, a: PubAction)
    requires PubStep(w, sh, sh', p, p', a)
    ensures sh'.evidence == sh.evidence && sh'.reports == sh.reports
  {
  }

  lemma SnapAddsNoEvidence(w: World, sh: Shared, sh': Shared, p: Snap, p': Snap, a: SnapAction)
    requires SnapStep(w, sh, sh', p, p', a)
    ensures sh'.evidence == sh.evidence && sh'.reports == sh.reports
  {
  }

  lemma ReadAddsNoEvidence(w: World, sh: Shared, sh': Shared, p: Read, p': Read, a: ReadAction)
    requires ReadStep(w, sh, sh', p, p', a)
    ensures sh'.evidence == sh.evidence && sh'.reports == sh.reports
  {
  }

  lemma CopyAddsNoEvidence(w: World, sh: Shared, sh': Shared, p: Copier, p': Copier, a: CopyAction)
    requires CopyStep(w, sh, sh', p, p', a)
    ensures sh'.evidence == sh.evidence && sh'.reports == sh.reports
  {
  }

  lemma ExecStaysWitnessed(w: World, ss: seq<State>, ls: seq<Label>, i: nat, pid: nat)
    requires |ss| == |ls| + 1 && i < |ls| && Next(w, ss[i], ss[i + 1], ls[i]) && pid in ss[i + 1].procs
    requires pid in ss[i].procs ==> ExecWitnessed(ss, ls, i, ss[i].procs[pid])
    ensures ExecWitnessed(ss, ls, i + 1, ss[i + 1].procs[pid])
  {
    var q := ss[i + 1].procs[pid];
    if q.ExecProc? && q.exec.pc.ExecDeleted? {
      if ls[i].Act? && ls[i].pid == pid {
        ActorIsWitnessed(w, ss, ls, i);
      } else {
        ProcUntouched(w, ss[i], ss[i + 1], ls[i], pid);
        NextKeepsBooks(w, ss[i], ss[i + 1], ls[i]);
        BystanderIsWitnessed(ss, ls, i, q);
      }
    }
  }

  lemma ProcUntouched(w: World, s: State, s': State, l: Label, pid: nat)
    requires Next(w, s, s', l) && pid in s'.procs && !(l.Act? && l.pid == pid)
    requires s'.procs[pid].ExecProc? && !s'.procs[pid].exec.pc.ExecStart?
    ensures pid in s.procs && s.procs[pid] == s'.procs[pid]
  {
  }

  lemma BystanderIsWitnessed(ss: seq<State>, ls: seq<Label>, i: nat, q: Proc)
    requires |ss| == |ls| + 1 && i < |ls| && BooksKept(ss[i].sh, ss[i + 1].sh) && ExecWitnessed(ss, ls, i, q)
    ensures ExecWitnessed(ss, ls, i + 1, q)
  {
    if q.ExecProc? && q.exec.pc.ExecDeleted? {
      var c := NextOf(ss[i].sh, q.exec, q.exec.pc.results);
      WitnessedStill(ss, ls, i, q.exec.planHash, c.key, c.version, q.exec.pc.outcome);
    }
  }

  lemma ActorIsWitnessed(w: World, ss: seq<State>, ls: seq<Label>, i: nat)
    requires |ss| == |ls| + 1 && i < |ls| && ls[i].Act? && Next(w, ss[i], ss[i + 1], ls[i])
    requires var q := ss[i + 1].procs[ls[i].pid]; q.ExecProc? && q.exec.pc.ExecDeleted?
    ensures ExecWitnessed(ss, ls, i + 1, ss[i + 1].procs[ls[i].pid])
  {
    var p, q := ss[i].procs[ls[i].pid], ss[i + 1].procs[ls[i].pid];
    DeletedByAttempt(w, ss[i].sh, ss[i + 1].sh, p.exec, q.exec, ls[i].action.exec);
    var c := NextOf(ss[i].sh, q.exec, q.exec.pc.results);
    assert Attempts(ss[i], ss[i + 1], ls[i], q.exec.planHash, c.key, c.version, q.exec.pc.outcome);
  }

  lemma EvidenceStaysWitnessed(w: World, ss: seq<State>, ls: seq<Label>, i: nat, at: (Hash, Key))
    requires |ss| == |ls| + 1 && i < |ls| && Next(w, ss[i], ss[i + 1], ls[i]) && at in ss[i + 1].sh.evidence
    requires EvidenceWitnessed(ss, ls, i)
    requires ls[i].Act? ==> ExecWitnessed(ss, ls, i, ss[i].procs[ls[i].pid])
    ensures var e := ss[i + 1].sh.evidence[at];
            e.planHash == at.0 && e.key == at.1 && Witnessed(ss, ls, i + 1, at.0, at.1, e.version, e.outcome)
  {
    var e := ss[i + 1].sh.evidence[at];
    if at in ss[i].sh.evidence {
      NextKeepsBooks(w, ss[i], ss[i + 1], ls[i]);
    } else {
      var p, p' := ss[i].procs[ls[i].pid], ss[i + 1].procs[ls[i].pid];
      if !ls[i].action.ByExec? { OthersAddNoEvidence(w, ss[i].sh, ss[i + 1].sh, p, p', ls[i].action); }
      EvidenceByRecord(w, ss[i].sh, ss[i + 1].sh, p.exec, p'.exec, ls[i].action.exec, at);
    }
    WitnessedStill(ss, ls, i, at.0, at.1, e.version, e.outcome);
  }

  /** What the books and the executors know in the i-th state is witnessed. */
  ghost predicate AllWitnessed(ss: seq<State>, ls: seq<Label>, i: nat)
    requires |ss| == |ls| + 1 && i <= |ls|
  {
    EvidenceWitnessed(ss, ls, i) && forall pid :: pid in ss[i].procs ==> ExecWitnessed(ss, ls, i, ss[i].procs[pid])
  }

  lemma StepWitnessed(w: World, ss: seq<State>, ls: seq<Label>, i: nat)
    requires |ss| == |ls| + 1 && i < |ls| && Next(w, ss[i], ss[i + 1], ls[i]) && AllWitnessed(ss, ls, i)
    ensures AllWitnessed(ss, ls, i + 1)
  {
    var next := ss[i + 1];
    forall pid | pid in next.procs ensures ExecWitnessed(ss, ls, i + 1, next.procs[pid]) {
      ExecStaysWitnessed(w, ss, ls, i, pid);
    }
    forall at | at in ss[i + 1].sh.evidence
      ensures var e := ss[i + 1].sh.evidence[at];
              e.planHash == at.0 && e.key == at.1 && Witnessed(ss, ls, i + 1, at.0, at.1, e.version, e.outcome)
    {
      EvidenceStaysWitnessed(w, ss, ls, i, at);
    }
  }

  lemma {:induction false} RunWitnessed(w: World, ss: seq<State>, ls: seq<Label>, i: nat)
    requires IsRun(w, ss, ls) && i < |ss|
    ensures AllWitnessed(ss, ls, i)
  {
    if i > 0 {
      RunWitnessed(w, ss, ls, i - 1);
      StepWitnessed(w, ss, ls, i - 1);
    }
  }

  /** Evidence is true.  It goes back to an earlier attempt of an executor of its plan on that key: the object was
      there, at the version named, if and only if the evidence says it was deleted, and was gone after. */
  lemma EvidenceIsTrue(w: World, ss: seq<State>, ls: seq<Label>, i: nat, planHash: Hash, key: Key) returns (j: nat)
    requires IsRun(w, ss, ls) && i < |ss| && (planHash, key) in ss[i].sh.evidence
    ensures j < i && ls[j].Act? && ls[j].action == ByExec(ExecDelete)
    ensures ls[j].pid in ss[j].procs && ss[j].procs[ls[j].pid].ExecProc?
    ensures Tries(ss[j].sh, ss[j].procs[ls[j].pid].exec, planHash, key, ss[i].sh.evidence[(planHash, key)].version)
    ensures var e := ss[i].sh.evidence[(planHash, key)];
            && e.planHash == planHash && e.key == key
            && (e.outcome.Deleted? <==> key in ss[j].sh.store)
            && (e.outcome.Deleted? ==> ss[j].sh.store[key].version == e.version && key !in ss[j + 1].sh.store)
  {
    RunWitnessed(w, ss, ls, i);
    var e := ss[i].sh.evidence[(planHash, key)];
    assert Witnessed(ss, ls, i, (planHash, key).0, (planHash, key).1, e.version, e.outcome);
    j :| 0 <= j < i && Attempts(ss[j], ss[j + 1], ls[j], planHash, key, e.version, e.outcome);
  }

  /** So is a report: of each of the plan's candidates in turn it says whether an execution of the plan deleted it,
      at its planned version, or found it missing. */
  lemma ReportIsTrue(w: World, ss: seq<State>, ls: seq<Label>, i: nat, planHash: Hash, n: nat) returns (j: nat)
    requires WorldOk(w) && IsRun(w, ss, ls) && Disciplined(w, {}, ss, ls) && i < |ss|
    requires planHash in ss[i].sh.reports
    requires planHash in ss[i].sh.plans && n < |ss[i].sh.plans[planHash].candidates|
    ensures |ss[i].sh.reports[planHash].results| == |ss[i].sh.plans[planHash].candidates|
    ensures j < i && ls[j].Act? && ls[j].action == ByExec(ExecDelete)
    ensures ls[j].pid in ss[j].procs && ss[j].procs[ls[j].pid].ExecProc?
    ensures var c := ss[i].sh.plans[planHash].candidates[n];
            Tries(ss[j].sh, ss[j].procs[ls[j].pid].exec, planHash, c.key, c.version)
    ensures var c, e := ss[i].sh.plans[planHash].candidates[n], ss[i].sh.reports[planHash].results[n];
            && (e.outcome.Deleted? <==> c.key in ss[j].sh.store)
            && (e.outcome.Deleted? ==> ss[j].sh.store[c.key].version == c.version && c.key !in ss[j + 1].sh.store)
  {
    ReportsAreEvidence(w, ss, ls, i, planHash, n);
    j := EvidenceIsTrue(w, ss, ls, i, planHash, ss[i].sh.plans[planHash].candidates[n].key);
  }

  lemma ReportsAreEvidence(w: World, ss: seq<State>, ls: seq<Label>, i: nat, planHash: Hash, n: nat)
    requires WorldOk(w) && IsRun(w, ss, ls) && Disciplined(w, {}, ss, ls) && i < |ss|
    requires planHash in ss[i].sh.reports
    requires planHash in ss[i].sh.plans && n < |ss[i].sh.plans[planHash].candidates|
    ensures var sh, c := ss[i].sh, ss[i].sh.plans[planHash].candidates[n];
            && |sh.reports[planHash].results| == |sh.plans[planHash].candidates|
            && (planHash, c.key) in sh.evidence && sh.evidence[(planHash, c.key)] == sh.reports[planHash].results[n]
            && sh.reports[planHash].results[n].version == c.version
  {
    RunKeepsInv(w, ss, ls, {}, i);
    assert ResultsMatch(ss[i].sh, planHash, ss[i].sh.reports[planHash].results);
  }

  // ---------------------------------------------------------------- nothing else disappears

  lemma PubLeaves(w: World, sh: Shared, sh': Shared, p: Pub, p': Pub, a: PubAction, key: Key)
    requires PubStep(w, sh, sh', p, p', a) && key in sh.store
    ensures key in sh'.store
  {
  }

  lemma SnapLeaves(w: World, sh: Shared, sh': Shared, p: Snap, p': Snap, a: SnapAction, key: Key)
    requires SnapStep(w, sh, sh', p, p', a) && key in sh.store
    ensures key in sh'.store
  {
  }

  lemma CopyLeaves(w: World, sh: Shared, sh': Shared, p: Copier, p': Copier, a: CopyAction, key: Key)
    requires CopyStep(w, sh, sh', p, p', a) && key in sh.store
    ensures key in sh'.store || (a.CopyWithdraw? && key == ManifestKey(p.target) && Withdraws(sh, p))
  {
  }

  lemma ExecLeaves(w: World, sh: Shared, sh': Shared, p: Exec, p': Exec, a: ExecAction, key: Key)
    requires ExecStep(w, sh, sh', p, p', a) && key in sh.store && key !in sh'.store
    ensures a.ExecDelete? && !key.ManifestKey? && Tries(sh, p, p.planHash, key, sh.store[key].version)
  {
  }

  /** An object leaves the store only as the next candidate, at its planned version, of a plan that is being
      executed; a manifest, which never is one, only by a copier's withdrawal. */
  lemma DisappearsOnlyBy(w: World, s: State, s': State, l: Label, key: Key)
    requires Next(w, s, s', l) && key in s.sh.store && key !in s'.sh.store
    ensures l.Act? && l.pid in s.procs
    ensures key.ManifestKey? ==> IsWithdrawal(s, l, key.id)
    ensures !key.ManifestKey? ==>
              && l.action == ByExec(ExecDelete) && s.procs[l.pid].ExecProc?
              && var p := s.procs[l.pid].exec; Tries(s.sh, p, p.planHash, key, s.sh.store[key].version)
  {
    var p, p' := s.procs[l.pid], s'.procs[l.pid];
    if l.action.ByPub? {
      PubLeaves(w, s.sh, s'.sh, p.pub, p'.pub, l.action.pub, key);
    } else if l.action.BySnap? {
      SnapLeaves(w, s.sh, s'.sh, p.snap, p'.snap, l.action.snap, key);
    } else if l.action.ByCopy? {
      CopyLeaves(w, s.sh, s'.sh, p.copier, p'.copier, l.action.copy, key);
    } else if l.action.ByExec? {
      ExecLeaves(w, s.sh, s'.sh, p.exec, p'.exec, l.action.exec, key);
    }
  }

  // ---------------------------------------------------------------- grace

  /** Whatever an executor does after its first look at the plan, it does once the plan's grace is over. */
  predicate GraceOver(sh: Shared, p: Proc) {
    p.ExecProc? ==>
      && p.exec.now <= sh.h.clock
      && (!p.exec.pc.ExecStart? && !p.exec.pc.ExecDone? ==>
            p.exec.planHash in sh.plans && sh.plans[p.exec.planHash].notBefore <= p.exec.now)
  }

  /** What the books record of their making: the plan's execution fence, and times after its grace. */
  ghost predicate BooksTimed(sh: Shared) {
    && (forall at :: at in sh.evidence ==>
          && at.0 in sh.plans && sh.plans[at.0].notBefore <= sh.evidence[at].observedAt <= sh.h.clock)
    && (forall x :: x in sh.reports ==>
          && x in sh.plans && sh.reports[x].fence == ExecutionFence(sh.plans[x])
          && sh.plans[x].notBefore <= sh.reports[x].completedAt <= sh.h.clock)
  }

  lemma ExecKeepsGrace(w: World, sh: Shared, sh': Shared, p: Exec, p': Exec, a: ExecAction)
    requires ExecStep(w, sh, sh', p, p', a) && GraceOver(sh, ExecProc(p))
    ensures GraceOver(sh', ExecProc(p'))
  {
  }

  lemma ExecTimesBooks(w: World, sh: Shared, sh': Shared, p: Exec, p': Exec, a: ExecAction)
    requires ExecStep(w, sh, sh', p, p', a) && GraceOver(sh, ExecProc(p)) && BooksTimed(sh)
    ensures BooksTimed(sh')
  {
  }

  lemma BooksStayTimed(w: World, s: State, s': State, l: Label)
    requires Next(w, s, s', l) && BooksTimed(s.sh) && (l.Act? ==> GraceOver(s.sh, s.procs[l.pid]))
    ensures BooksTimed(s'.sh)
  {
    if l.Act? && l.action.ByExec? {
      ExecTimesBooks(w, s.sh, s'.sh, s.procs[l.pid].exec, s'.procs[l.pid].exec, l.action.exec);
    } else {
      BooksLeftAlone(w, s, s', l);
    }
  }

  lemma BooksLeftAlone(w: World, s: State, s': State, l: Label)
    requires Next(w, s, s', l) && BooksTimed(s.sh) && !(l.Act? && l.action.ByExec?)
    ensures BooksTimed(s'.sh)
  {
    NextKeepsBooks(w, s, s', l);
    ClockRuns(w, s, s', l);
    if l.Act? { OthersAddNoEvidence(w, s.sh, s'.sh, s.procs[l.pid], s'.procs[l.pid], l.action); }
    TimedFrame(s.sh, s'.sh);
  }

  lemma TimedFrame(sh: Shared, sh': Shared)
    requires BooksTimed(sh) && BooksKept(sh, sh') && sh.h.clock <= sh'.h.clock
    requires sh'.evidence == sh.evidence && sh'.reports == sh.reports
    ensures BooksTimed(sh')
  {
  }

  lemma GraceStaysOver(w: World, s: State, s': State, l: Label, pid: nat)
    requires Next(w, s, s', l) && pid in s'.procs
    requires pid in s.procs ==> GraceOver(s.sh, s.procs[pid])
    ensures GraceOver(s'.sh, s'.procs[pid])
  {
    NextKeepsBooks(w, s, s', l);
    ClockRuns(w, s, s', l);
    if l.Act? && l.pid == pid && l.action.ByExec? {
      ExecKeepsGrace(w, s.sh, s'.sh, s.procs[pid].exec, s'.procs[pid].exec, l.action.exec);
    }
  }

  lemma {:induction false} RunTimed(w: World, ss: seq<State>, ls: seq<Label>, i: nat)
    requires IsRun(w, ss, ls) && i < |ss|
    ensures BooksTimed(ss[i].sh) && forall pid :: pid in ss[i].procs ==> GraceOver(ss[i].sh, ss[i].procs[pid])
  {
    if i > 0 {
      RunTimed(w, ss, ls, i - 1);
      assert Next(w, ss[i - 1], ss[i], ls[i - 1]);
      BooksStayTimed(w, ss[i - 1], ss[i], ls[i - 1]);
      forall pid | pid in ss[i].procs ensures GraceOver(ss[i].sh, ss[i].procs[pid]) {
        GraceStaysOver(w, ss[i - 1], ss[i], ls[i - 1], pid);
      }
    }
  }

  /** The steps of an execution that act on the archive. */
  predicate Executes(a: ExecAction) {
    a.ExecBarrier? || a.ExecEnter? || a.ExecFence? || a.ExecRetire? || a.ExecDelete? || a.ExecRecord? || a.ExecReport?
  }

  /** Nothing of a plan is executed before its grace is over, and its report bears the fence of its execution and a
      time after that. */
  lemma NothingBeforeGrace(w: World, ss: seq<State>, ls: seq<Label>, i: nat)
    requires IsRun(w, ss, ls) && i < |ls| && ls[i].Act? && ls[i].action.ByExec? && Executes(ls[i].action.exec)
    ensures ls[i].pid in ss[i].procs && ss[i].procs[ls[i].pid].ExecProc?
    ensures var h := ss[i].procs[ls[i].pid].exec.planHash;
            && h in ss[i].sh.plans && ss[i].sh.plans[h].notBefore <= ss[i].sh.h.clock
            && (h in ss[i].sh.reports ==>
                  && ss[i].sh.reports[h].fence == ExecutionFence(ss[i].sh.plans[h])
                  && ss[i].sh.plans[h].notBefore <= ss[i].sh.reports[h].completedAt <= ss[i].sh.h.clock)
  {
    RunTimed(w, ss, ls, i);
    assert Next(w, ss[i], ss[i + 1], ls[i]);
    assert GraceOver(ss[i].sh, ss[i].procs[ls[i].pid]);
  }
}
