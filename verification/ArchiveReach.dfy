/**
 Building concrete runs, step by step.
 */
module ArchiveReach {
  import opened Model
  import opened Checkpoint
  import opened Archive
  import opened ArchiveSafety
  import opened ArchiveTheorems
  import opened ArchiveLog
  import opened ArchiveDurability
  import GcControl

  /** Which hypotheses a run meets: leases held, deletions only when they may come, publications drawn from a
      log. */
  datatype Rules = Rules(leases: bool, tenure: bool, log: Option<Log>)

  /** What a call has been promised in the course of a run: a publication acknowledged while the stored manifest
      reaches its last entry, or a copy that found this very manifest in place and returned Ok. */
  datatype Promise = Answered(id: Identity, es: seq<Entry>) | Adopted(id: Identity, m: Manifest)

  /** The i-th step makes the promise. */
  predicate Happens(ss: seq<State>, ls: seq<Label>, i: nat, q: Promise)
    requires |ss| == |ls| + 1 && i < |ls|
  {
    && ls[i].Act? && ls[i].pid in ss[i].procs
    && var p := ss[i].procs[ls[i].pid];
    match q
    case Answered(id, es) =>
      && Acknowledging(ls[i]) && p.PubProc? && p.pub.id == id && p.pub.entries == es
      && es != [] && Reaches(ss[i + 1].sh.store, id, es)
    case Adopted(id, m) =>
      && ls[i].action.ByCopy? && ls[i].action.copy.CopyRegister?
      && p.CopyProc? && p.copier.target == id && p.copier.pc.CopyFound?
      && p.copier.loaded.Some? && Goods(p.copier) == m && HasManifest(ss[i + 1].sh.store, id, m)
  }

  ghost predicate Made(ss: seq<State>, ls: seq<Label>, q: Promise)
    requires |ss| == |ls| + 1
  {
    exists i :: 0 <= i < |ls| && Happens(ss, ls, i, q)
  }

  ghost predicate Obeys(w: World, rules: Rules, ss: seq<State>, ls: seq<Label>)
    requires |ss| == |ls| + 1
  {
    && (rules.leases ==> forall i :: 0 <= i < |ss| ==> LeasesHeld({}, ss[i]))
    && (rules.tenure ==> forall i :: 0 <= i < |ls| ==> InTenure(w, ss[i], ls[i]))
    && (rules.log.Some? ==>
          && LogOk(w, rules.log.value) && StoreOnLog(w, rules.log.value, ss[0].sh.store)
          && forall i :: 0 <= i < |ls| ==> DrawsFromLog(rules.log.value, ls[i]))
  }

  /** Reached by a run that obeys the rules and in which the promises were made. */
  ghost predicate Reached(w: World, rules: Rules, made: set<Promise>, s: State) {
    exists ss: seq<State>, ls: seq<Label> ::
      && IsRun(w, ss, ls) && ss[|ss| - 1] == s && Obeys(w, rules, ss, ls)
      && forall q :: q in made ==> Made(ss, ls, q)
  }

  lemma RunReaching(w: World, rules: Rules, made: set<Promise>, s: State) returns (ss: seq<State>, ls: seq<Label>)
    requires Reached(w, rules, made, s)
    ensures IsRun(w, ss, ls) && ss[|ss| - 1] == s && Obeys(w, rules, ss, ls)
    ensures forall q :: q in made ==> Made(ss, ls, q)
  {
    ss, ls :| && IsRun(w, ss, ls) && ss[|ss| - 1] == s && Obeys(w, rules, ss, ls)
              && forall q :: q in made ==> Made(ss, ls, q);
  }

  lemma WhenMade(ss: seq<State>, ls: seq<Label>, q: Promise) returns (i: nat)
    requires |ss| == |ls| + 1 && Made(ss, ls, q)
    ensures i < |ls| && Happens(ss, ls, i, q)
  {
    i :| 0 <= i < |ls| && Happens(ss, ls, i, q);
  }

  /** Obeying all rules is meeting all hypotheses. */
  lemma ObeysAll(w: World, log: Log, ss: seq<State>, ls: seq<Label>)
    requires IsRun(w, ss, ls) && Obeys(w, Rules(true, true, Some(log)), ss, ls)
    ensures LogRun(w, log, ss, ls) && Disciplined(w, {}, ss, ls)
  {
  }

  lemma ReachInit(w: World, rules: Rules, s: State)
    requires InitState(w, s)
    requires rules.log.Some? ==> LogOk(w, rules.log.value) && StoreOnLog(w, rules.log.value, s.sh.store)
    ensures Reached(w, rules, {}, s)
  {
    var ss, ls: seq<Label> := [s], [];
    assert IsRun(w, ss, ls) && Obeys(w, rules, ss, ls);
  }

  // ---------------------------------------------------------------- one step more

  /** The step obeys the rules. */
  ghost predicate StepObeys(w: World, rules: Rules, s: State, s': State, l: Label) {
    && (rules.leases ==> LeasesHeld({}, s'))
    && (rules.tenure ==> InTenure(w, s, l))
    && (rules.log.Some? ==> DrawsFromLog(rules.log.value, l))
  }

  lemma RunOneMore(w: World, ss: seq<State>, ls: seq<Label>, s': State, l: Label)
    requires IsRun(w, ss, ls) && Next(w, ss[|ss| - 1], s', l)
    ensures IsRun(w, ss + [s'], ls + [l])
  {
    var ss', ls' := ss + [s'], ls + [l];
    forall i | 0 <= i < |ls'| ensures Next(w, ss'[i], ss'[i + 1], ls'[i]) {
      if i < |ls| { assert Next(w, ss[i], ss[i + 1], ls[i]); }
    }
  }

  lemma ObeysOneMore(w: World, rules: Rules, ss: seq<State>, ls: seq<Label>, s': State, l: Label)
    requires |ss| == |ls| + 1 && Obeys(w, rules, ss, ls) && StepObeys(w, rules, ss[|ss| - 1], s', l)
    ensures Obeys(w, rules, ss + [s'], ls + [l])
  {
    var ss', ls' := ss + [s'], ls + [l];
    forall i | 0 <= i < |ls'| ensures rules.tenure ==> InTenure(w, ss'[i], ls'[i]) {
      if i < |ls| && rules.tenure { assert InTenure(w, ss[i], ls[i]); }
    }
  }

  lemma MadeStill(ss: seq<State>, ls: seq<Label>, s': State, l: Label, q: Promise)
    requires |ss| == |ls| + 1 && Made(ss, ls, q)
    ensures Made(ss + [s'], ls + [l], q)
  {
    var i :| 0 <= i < |ls| && Happens(ss, ls, i, q);
    var ss', ls' := ss + [s'], ls + [l];
    assert ss'[i] == ss[i] && ss'[i + 1] == ss[i + 1] && ls'[i] == ls[i];
    assert Happens(ss', ls', i, q);
  }

  /** The promise the step makes, if it makes one. */
  predicate Makes(s: State, s': State, l: Label, q: Promise) {
    Happens([s, s'], [l], 0, q)
  }

  lemma MadeNow(ss: seq<State>, ls: seq<Label>, s': State, l: Label, q: Promise)
    requires |ss| == |ls| + 1 && Makes(ss[|ss| - 1], s', l, q)
    ensures Made(ss + [s'], ls + [l], q)
  {
    var ss', ls' := ss + [s'], ls + [l];
    assert ss'[|ls|] == ss[|ss| - 1] && ss'[|ls| + 1] == s' && ls'[|ls|] == l;
    assert Happens(ss', ls', |ls|, q);
  }

  lemma ExtendRun(w: World, rules: Rules, made: set<Promise>, now: set<Promise>, ss: seq<State>, ls: seq<Label>,
                  s': State, l: Label)
    requires IsRun(w, ss, ls) && Obeys(w, rules, ss, ls) && forall q :: q in made ==> Made(ss, ls, q)
    requires Next(w, ss[|ss| - 1], s', l) && StepObeys(w, rules, ss[|ss| - 1], s', l)
    requires forall q :: q in now ==> Makes(ss[|ss| - 1], s', l, q)
    ensures Reached(w, rules, made + now, s')
  {
    var ss', ls' := ss + [s'], ls + [l];
    RunOneMore(w, ss, ls, s', l);
    ObeysOneMore(w, rules, ss, ls, s', l);
    forall q | q in made + now ensures Made(ss', ls', q) {
      if q in made { MadeStill(ss, ls, s', l, q); } else { MadeNow(ss, ls, s', l, q); }
    }
    assert ss'[|ss'| - 1] == s';
  }

  lemma ReachPromise(w: World, rules: Rules, made: set<Promise>, now: set<Promise>, s: State, s': State, l: Label)
    requires Reached(w, rules, made, s) && Next(w, s, s', l) && StepObeys(w, rules, s, s', l)
    requires forall q :: q in now ==> Makes(s, s', l, q)
    ensures Reached(w, rules, made + now, s')
  {
    var ss: seq<State>, ls: seq<Label> :|
      && IsRun(w, ss, ls) && ss[|ss| - 1] == s && Obeys(w, rules, ss, ls)
      && forall q :: q in made ==> Made(ss, ls, q);
    ExtendRun(w, rules, made, now, ss, ls, s', l);
  }

  lemma ReachNext(w: World, rules: Rules, made: set<Promise>, s: State, s': State, l: Label)
    requires Reached(w, rules, made, s) && Next(w, s, s', l) && StepObeys(w, rules, s, s', l)
    ensures Reached(w, rules, made, s')
  {
    assert made + {} == made;
    ReachPromise(w, rules, made, {}, s, s', l);
  }

  lemma ReachOnePromise(w: World, rules: Rules, made: set<Promise>, q: Promise, s: State, s': State, l: Label)
    requires Reached(w, rules, made, s) && Next(w, s, s', l) && StepObeys(w, rules, s, s', l) && Makes(s, s', l, q)
    ensures Reached(w, rules, made + {q}, s')
  {
    ReachPromise(w, rules, made, {q}, s, s', l);
  }

  // ---------------------------------------------------------------- one or two processes

  function Solo(p: Proc): map<nat, Proc> {
    map[0 := p]
  }

  function Pair(p: Proc, q: Proc): map<nat, Proc> {
    map[0 := p, 1 := q]
  }

  lemma SoloHeld(sh: Shared, p: Proc)
    requires LeaseHeld(sh, p, false)
    ensures LeasesHeld({}, State(sh, Solo(p)))
  {
  }

  lemma PairHeld(sh: Shared, p: Proc, q: Proc)
    requires LeaseHeld(sh, p, false) && LeaseHeld(sh, q, false)
    ensures LeasesHeld({}, State(sh, Pair(p, q)))
  {
  }

  lemma ProcsMove(p: Proc, q: Proc, x: Proc)
    ensures Solo(p)[0 := x] == Solo(x)
    ensures Pair(p, q)[0 := x] == Pair(x, q) && Pair(p, q)[1 := x] == Pair(p, x)
  {
  }

  lemma ReachAct(w: World, rules: Rules, made: set<Promise>, s: State, pid: nat, p: Proc, p': Proc, a: Action,
                 s': State)
    requires Reached(w, rules, made, s) && pid in s.procs && s.procs[pid] == p
    requires ActorStep(w, s.sh, s'.sh, p, p', a) && s'.procs == s.procs[pid := p']
    requires (rules.leases ==> LeasesHeld({}, s')) && (rules.tenure ==> InTenure(w, s, Act(pid, a)))
    ensures Reached(w, rules, made, s')
  {
    ReachNext(w, rules, made, s, s', Act(pid, a));
  }

  /** The only process acts. */
  lemma ReachSolo(w: World, rules: Rules, made: set<Promise>, sh: Shared, sh': Shared, p: Proc, p': Proc, a: Action)
    requires Reached(w, rules, made, State(sh, Solo(p))) && ActorStep(w, sh, sh', p, p', a)
    requires (rules.leases ==> LeaseHeld(sh', p', false)) && (rules.tenure ==> a != ByExec(ExecDelete))
    ensures Reached(w, rules, made, State(sh', Solo(p')))
  {
    ProcsMove(p, p, p');
    if rules.leases { SoloHeld(sh', p'); }
    ReachAct(w, rules, made, State(sh, Solo(p)), 0, p, p', a, State(sh', Solo(p')));
  }

  /** The first of two processes acts. */
  lemma ReachFirst(w: World, rules: Rules, made: set<Promise>, sh: Shared, sh': Shared, p: Proc, p': Proc, q: Proc,
                   a: Action)
    requires Reached(w, rules, made, State(sh, Pair(p, q))) && ActorStep(w, sh, sh', p, p', a)
    requires rules.leases ==> LeaseHeld(sh', p', false) && LeaseHeld(sh', q, false)
    requires rules.tenure ==> a != ByExec(ExecDelete)
    ensures Reached(w, rules, made, State(sh', Pair(p', q)))
  {
    ProcsMove(p, q, p');
    if rules.leases { PairHeld(sh', p', q); }
    ReachAct(w, rules, made, State(sh, Pair(p, q)), 0, p, p', a, State(sh', Pair(p', q)));
  }

  /** The second of two processes acts. */
  lemma ReachSecond(w: World, rules: Rules, made: set<Promise>, sh: Shared, sh': Shared, p: Proc, q: Proc, q': Proc,
                    a: Action)
    requires Reached(w, rules, made, State(sh, Pair(p, q))) && ActorStep(w, sh, sh', q, q', a)
    requires rules.leases ==> LeaseHeld(sh', p, false) && LeaseHeld(sh', q', false)
    requires rules.tenure ==> a != ByExec(ExecDelete)
    ensures Reached(w, rules, made, State(sh', Pair(p, q')))
  {
    ProcsMove(p, q, q');
    if rules.leases { PairHeld(sh', p, q'); }
    ReachAct(w, rules, made, State(sh, Pair(p, q)), 1, q, q', a, State(sh', Pair(p, q')));
  }

  lemma ReachBegin(w: World, rules: Rules, made: set<Promise>, s: State, pid: nat, p: Proc, s': State)
    requires Reached(w, rules, made, s) && CanBegin(s, p) && s' == State(s.sh, s.procs[pid := p])
    requires rules.leases ==> LeasesHeld({}, s')
    requires rules.log.Some? ==> ProcDraws(rules.log.value, p)
    ensures Reached(w, rules, made, s')
  {
    ReachNext(w, rules, made, s, s', Begin(pid, p));
  }

  /** A call begins as the only process, where there was none or where another was. */
  lemma ReachBeginSolo(w: World, rules: Rules, made: set<Promise>, s: State, p: Proc)
    requires Reached(w, rules, made, s) && CanBegin(s, p) && s.procs.Keys <= {0}
    requires rules.leases ==> LeaseHeld(s.sh, p, false)
    requires rules.log.Some? ==> ProcDraws(rules.log.value, p)
    ensures Reached(w, rules, made, State(s.sh, Solo(p)))
  {
    if rules.leases { SoloHeld(s.sh, p); }
    ReachBegin(w, rules, made, s, 0, p, State(s.sh, Solo(p)));
  }

  /** A call begins beside the first process, alone or in place of another call. */
  lemma ReachBeginSecond(w: World, rules: Rules, made: set<Promise>, s: State, p: Proc, q: Proc)
    requires Reached(w, rules, made, s) && CanBegin(s, q)
    requires 0 in s.procs && s.procs[0] == p && s.procs.Keys <= {0, 1}
    requires rules.leases ==> LeaseHeld(s.sh, p, false) && LeaseHeld(s.sh, q, false)
    requires rules.log.Some? ==> ProcDraws(rules.log.value, q)
    ensures Reached(w, rules, made, State(s.sh, Pair(p, q)))
  {
    if rules.leases { PairHeld(s.sh, p, q); }
    ReachBegin(w, rules, made, s, 1, q, State(s.sh, Pair(p, q)));
  }

  /** A call begins in place of the second process. */
  lemma ReachReplaceSecond(w: World, rules: Rules, made: set<Promise>, sh: Shared, p: Proc, q: Proc, q': Proc)
    requires Reached(w, rules, made, State(sh, Pair(p, q))) && CanBegin(State(sh, Pair(p, q)), q')
    requires rules.leases ==> LeaseHeld(sh, p, false) && LeaseHeld(sh, q', false)
    requires rules.log.Some? ==> ProcDraws(rules.log.value, q')
    ensures Reached(w, rules, made, State(sh, Pair(p, q')))
  {
    ReachBeginSecond(w, rules, made, State(sh, Pair(p, q)), p, q');
  }

  /** Another caller operates on the control object. */
  lemma ReachCall(w: World, rules: Rules, made: set<Promise>, s: State, sh': Shared, op: GcControl.ControlOp)
    requires Reached(w, rules, made, s) && AnyoneMay(op) && ControlWrite(w, s.sh, sh', op)
    requires rules.leases ==> LeasesHeld({}, State(sh', s.procs))
    ensures Reached(w, rules, made, State(sh', s.procs))
  {
    ReachNext(w, rules, made, s, State(sh', s.procs), Call(op));
  }
}
