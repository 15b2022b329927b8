/**
 Histories of the control object: any interleaving of its operations, by any callers, with a clock
 that never goes back.  What every history keeps: lease exclusion, the fence, the catalog, and at most
 one sweeping plan per fence.
 */
module GcHistory {
  import opened Model
  import opened GcControl

  /** `obtained` remembers every plan that ever took the barrier. */
  datatype History = History(control: Control, clock: nat, obtained: set<Plan>)

  datatype Event = Tick(to: nat) | Do(op: ControlOp)

  ghost predicate CollisionFreePlanHash(w: World) {
    forall p: Plan, q: Plan :: w.planHash(p) == w.planHash(q) ==> p == q
  }

  /** What `execute_gc` checks of a stored plan before it acts, and what planning guarantees of it. */
  ghost predicate Genuine(w: World, p: Plan) {
    && p.hash == w.planHash(p.(hash := ZERO))
    && (forall id :: id in p.swept ==> exists o :: o in p.observed && o.identity == id)
  }

  lemma GenuinePlansByHash(w: World, p: Plan, q: Plan)
    requires CollisionFreePlanHash(w) && Genuine(w, p) && Genuine(w, q) && p.hash == q.hash
    ensures p == q
  {
    assert p.(hash := ZERO) == q.(hash := ZERO);
    assert p == p.(hash := ZERO).(hash := p.hash);
  }

  const EMPTY_CONTROL: Control := Control(0, None, [], [], None)

  predicate InitHistory(h: History) {
    h.control == EMPTY_CONTROL && h.obtained == {}
  }

  /** The acquisition writes a new barrier, rather than finding its own already there. */
  predicate Obtains(h: History, op: ControlOp) {
    op.AcquireBarrier? && Expire(h.control, op.now).active.None?
  }

  ghost predicate PlanOfOpIsGenuine(w: World, op: ControlOp) {
    match op
    case AcquireBarrier(p, _) => Genuine(w, p)
    case EnterDelete(p, _) => Genuine(w, p)
    case RetirePlan(p, _) => Genuine(w, p)
    case ClearBarrier(p) => Genuine(w, p)
    case _ => true
  }

  ghost predicate OpStep(w: World, h: History, h': History, op: ControlOp) {
    && ReadingOf(op) <= h.clock
    && PlanOfOpIsGenuine(w, op)
    && Apply(w, h.control, op).Ok?
    && h' == History(Apply(w, h.control, op).value, h.clock,
                     if Obtains(h, op) then h.obtained + {op.plan} else h.obtained)
  }

  ghost predicate Step(w: World, h: History, h': History, e: Event) {
    match e
    case Tick(to) => h.clock <= to && h' == h.(clock := to)
    case Do(op) => OpStep(w, h, h', op)
  }

  ghost predicate HasObtained(h: History, planHash: Hash) {
    exists p :: p in h.obtained && p.hash == planHash
  }

  /** At most one sweeping plan per fence, below the fence's ceiling. */
  ghost predicate OneSweepPerFence(h: History) {
    forall p, q ::
      (p in h.obtained && q in h.obtained && p.fence == q.fence < MAX_U64 && p.swept != [] && q.swept != [])
      ==> p == q
  }

  /** If a plan retired one generation, it retired all it sweeps. */
  ghost predicate AllOrNothing(h: History) {
    forall p, id, x :: p in h.obtained && RetiredBy(h.control, id, p.hash) && x in p.swept ==>
      RetiredBy(h.control, x, p.hash)
  }

  ghost predicate ObtainedInv(w: World, h: History) {
    && (forall p :: p in h.obtained ==> Genuine(w, p) && ExecutionFence(p) <= h.control.fence)
    && (forall id :: IsRetired(h.control, id) ==>
          HasObtained(h, FindGeneration(h.control.generations, id).value.lifecycle.planHash))
    && (h.control.active.Some? ==> HasObtained(h, h.control.active.value.planHash))
    && OneSweepPerFence(h) && AllOrNothing(h)
  }

  ghost predicate HistoryInv(w: World, h: History) {
    ControlInv(h.control, h.clock) && ObtainedInv(w, h)
  }

  // ---------------------------------------------------------------- one operation

  lemma RegisterKeeps(c: Control, id: Identity, now: nat)
    requires UniqueIdentities(c.generations) && RootCataloged(c)
    ensures var c' := ApplyRegister(c, id, now).value;
            && UniqueIdentities(c'.generations) && RootCataloged(c')
            && CatalogGrows(c.generations, c'.generations)
            && (forall g :: IsRetired(c', g) ==>
                  IsRetired(c, g) && FindGeneration(c'.generations, g) == FindGeneration(c.generations, g))
            && FindGeneration(c'.generations, id).Some?
  {
    if FindGeneration(c.generations, id).None? {
      var e := CatalogEntry(id, ManifestKey(id), now, Active);
      var all := c.generations + [e];
      forall i, j | 0 <= i < j < |all| ensures all[i].identity != all[j].identity {
        if j == |all| - 1 { assert all[i] in c.generations; }
      }
      forall g ensures FindGeneration(SortCatalog(all), g)
                       == if g == id then Some(e) else FindGeneration(c.generations, g)
      {
        SortCatalogFinds(all, g);
        FindInConcat(c.generations, [e], g);
      }
      SortCatalogFinds(all, id);
    }
  }

  /** Each operation keeps the control invariant, never lowers the fence and only grows the catalog. */
  lemma OpKeepsControl(w: World, c: Control, op: ControlOp, clock: nat)
    requires ControlInv(c, clock) && ReadingOf(op) <= clock && Apply(w, c, op).Ok?
    ensures var c' := Apply(w, c, op).value;
            && ControlInv(c', clock)
            && c.fence <= c'.fence
            && CatalogGrows(c.generations, c'.generations)
  {
    match op
    case Register(id, now) => RegisterKeeps(c, id, now);
    case RetirePlan(p, now) => RetireAllFinds(c.generations, p.swept, p.hash, now);
    case EnterDelete(p, now) =>
      forall l | l in c.leases && Unexpired(c.leases, now) == [] ensures l.expires <= now {
        assert l !in Unexpired(c.leases, now);
      }
    case _ =>
  }

  /** Only retirement, which needs the barrier in its delete phase, changes which generations are retired. */
  lemma OnlyRetireRetires(w: World, c: Control, op: ControlOp, clock: nat)
    requires ControlInv(c, clock) && Apply(w, c, op).Ok?
    ensures var c' := Apply(w, c, op).value;
            forall id :: IsRetired(c', id) ==>
              || (IsRetired(c, id) && FindGeneration(c'.generations, id) == FindGeneration(c.generations, id))
              || (op.RetirePlan? && IsDeleting(c) && c.active.value.planHash == op.plan.hash
                  && id in op.plan.swept
                  && FindGeneration(c'.generations, id).value.lifecycle.planHash == op.plan.hash)
  {
    match op
    case Register(id, now) => RegisterKeeps(c, id, now);
    case RetirePlan(p, now) => RetireAllFinds(c.generations, p.swept, p.hash, now);
    case _ =>
  }

  /** A resumed plan that sweeps something had obtained the barrier before. */
  lemma ResumeNeedsHistory(w: World, h: History, p: Plan)
    requires ObtainedInv(w, h) && Genuine(w, p) && p.swept != [] && ResumedPlan(h.control, p)
    ensures HasObtained(h, p.hash)
  {
    var id := p.swept[0];
    assert id in p.swept;
    var o :| o in p.observed && o.identity == id;
    assert IsRetired(h.control, id);
  }

  lemma ObtainKeepsOneSweep(w: World, h: History, h': History, op: ControlOp)
    requires CollisionFreePlanHash(w)
    requires HistoryInv(w, h) && OpStep(w, h, h', op) && Obtains(h, op)
    ensures OneSweepPerFence(h')
  {
    var p := op.plan;
    var e := Expire(h.control, op.now);
    if p.swept != [] && p.fence < MAX_U64 {
      forall q | q in h.obtained && q.fence == p.fence && q.swept != [] ensures q == p {
        assert !FreshPlan(w, e, p);
        assert ResumedPlan(h.control, p);
        ResumeNeedsHistory(w, h, p);
        var r :| r in h.obtained && r.hash == p.hash;
        GenuinePlansByHash(w, r, p);
      }
    }
  }

  lemma OpKeepsAllOrNothing(w: World, h: History, h': History, op: ControlOp)
    requires CollisionFreePlanHash(w) && HistoryInv(w, h) && OpStep(w, h, h', op)
    ensures AllOrNothing(h')
  {
    OpKeepsControl(w, h.control, op, h.clock);
    OnlyRetireRetires(w, h.control, op, h.clock);
    forall p, id, x | p in h'.obtained && RetiredBy(h'.control, id, p.hash) && x in p.swept
      ensures RetiredBy(h'.control, x, p.hash)
    {
      if RetiredBy(h.control, id, p.hash) {
        var r :| r in h.obtained && r.hash == p.hash;
        GenuinePlansByHash(w, r, p);
        assert RetiredBy(h.control, x, p.hash);
      } else {
        GenuinePlansByHash(w, op.plan, p);
        RetireAllFinds(h.control.generations, op.plan.swept, op.plan.hash, op.now);
      }
    }
  }

  /** Every step of a history keeps the whole invariant. */
  lemma StepKeepsHistoryInv(w: World, h: History, h': History, e: Event)
    requires CollisionFreePlanHash(w)
    requires HistoryInv(w, h) && Step(w, h, h', e)
    ensures HistoryInv(w, h')
  {
    if e.Do? {
      var op := e.op;
      OpKeepsControl(w, h.control, op, h.clock);
      OnlyRetireRetires(w, h.control, op, h.clock);
      OpKeepsAllOrNothing(w, h, h', op);
      forall planHash | HasObtained(h, planHash) ensures HasObtained(h', planHash) {
        var p :| p in h.obtained && p.hash == planHash;
        assert p in h'.obtained;
      }
      if Obtains(h, op) {
        ObtainKeepsOneSweep(w, h, h', op);
        assert op.plan in h'.obtained;
      }
    }
  }

  // ---------------------------------------------------------------- whole histories

  ghost predicate IsRun(w: World, hs: seq<History>, es: seq<Event>) {
    && |hs| == |es| + 1
    && InitHistory(hs[0])
    && forall i :: 0 <= i < |es| ==> Step(w, hs[i], hs[i + 1], es[i])
  }

  /** Lease exclusion, unique identities and a cataloged root hold in every reachable control state. */
  lemma {:induction false} EveryStateSafe(w: World, hs: seq<History>, es: seq<Event>, i: nat)
    requires CollisionFreePlanHash(w) && IsRun(w, hs, es) && i < |hs|
    ensures HistoryInv(w, hs[i])
  {
    if i > 0 {
      EveryStateSafe(w, hs, es, i - 1);
      StepKeepsHistoryInv(w, hs[i - 1], hs[i], es[i - 1]);
    }
  }

  /** The fence never decreases, and what the catalog once said stays: entries keep their place in it
      and a retired generation stays retired, by the same plan. */
  lemma {:induction false} FenceAndCatalogNeverGoBack(w: World, hs: seq<History>, es: seq<Event>, i: nat, j: nat)
    requires CollisionFreePlanHash(w) && IsRun(w, hs, es) && i <= j < |hs|
    ensures hs[i].control.fence <= hs[j].control.fence
    ensures CatalogGrows(hs[i].control.generations, hs[j].control.generations)
    ensures hs[i].clock <= hs[j].clock && hs[i].obtained <= hs[j].obtained
    decreases j
  {
    if i < j {
      FenceAndCatalogNeverGoBack(w, hs, es, i, j - 1);
      EveryStateSafe(w, hs, es, j - 1);
      assert Step(w, hs[j - 1], hs[j], es[j - 1]);
      if es[j - 1].Do? {
        OpKeepsControl(w, hs[j - 1].control, es[j - 1].op, hs[j - 1].clock);
      }
    }
  }

  /** Among plans made at one fence, at most one that sweeps anything ever obtains the barrier,
      afresh or by resuming. */
  lemma OneSweepingPlanPerFence(w: World, hs: seq<History>, es: seq<Event>, i: nat, j: nat)
    requires CollisionFreePlanHash(w) && IsRun(w, hs, es)
    requires i < |es| && j < |es| && es[i].Do? && es[j].Do?
    requires Obtains(hs[i], es[i].op) && Obtains(hs[j], es[j].op)
    requires es[i].op.plan.fence == es[j].op.plan.fence < MAX_U64
    requires es[i].op.plan.swept != [] && es[j].op.plan.swept != []
    ensures es[i].op.plan == es[j].op.plan
  {
    var n := |es|;
    EveryStateSafe(w, hs, es, n);
    assert Step(w, hs[i], hs[i + 1], es[i]) && Step(w, hs[j], hs[j + 1], es[j]);
    FenceAndCatalogNeverGoBack(w, hs, es, i + 1, n);
    FenceAndCatalogNeverGoBack(w, hs, es, j + 1, n);
    assert es[i].op.plan in hs[n].obtained && es[j].op.plan in hs[n].obtained;
  }

  /** Retirement of a plan's swept set is all or nothing, in every reachable control state. */
  lemma RetirementIsAllOrNothing(w: World, hs: seq<History>, es: seq<Event>, i: nat, p: Plan, id: Identity, x: Identity)
    requires CollisionFreePlanHash(w) && IsRun(w, hs, es) && i < |hs| && Genuine(w, p)
    requires RetiredBy(hs[i].control, id, p.hash) && x in p.swept
    ensures RetiredBy(hs[i].control, x, p.hash)
  {
    EveryStateSafe(w, hs, es, i);
    var r :| r in hs[i].obtained && r.hash == p.hash;
    GenuinePlansByHash(w, r, p);
  }

  lemma {:induction false} FindsItself(gens: seq<CatalogEntry>, o: CatalogEntry)
    requires UniqueIdentities(gens) && o in gens
    ensures FindGeneration(gens, o.identity) == Some(o)
  {
    if gens[0] != o {
      var j :| 0 < j < |gens| && gens[j] == o;
      FindsItself(gens[1..], o);
    }
  }

  /** Both limits of that statement are exact.  Of two plans made at one fence and still fresh, the second
      obtains the barrier after the first has obtained and dropped it if and only if the fence has reached
      its ceiling, where it can no longer advance, or the second sweeps nothing, so that it passes for one
      that resumes. */
  lemma SecondPlanObtainsExactly(w: World, c: Control, p: Plan, q: Plan, now: nat)
    requires c.active.None? && c.fence <= MAX_U64 && UniqueIdentities(c.generations)
    requires c.root == Some(p.root) && p.root == q.root
    requires FreshPlan(w, c, p) && FreshPlan(w, c, q) && q.observed == c.generations
    requires forall id :: id in q.swept ==> FindGeneration(c.generations, id).Some? && !RetiredBy(c, id, q.hash)
    ensures ApplyAcquireBarrier(w, c, p, now).Ok?
    ensures ApplyAbort(ApplyAcquireBarrier(w, c, p, now).value, p.operation).Ok?
    ensures var dropped := ApplyAbort(ApplyAcquireBarrier(w, c, p, now).value, p.operation).value;
            ApplyAcquireBarrier(w, dropped, q, now).Ok? <==> c.fence == MAX_U64 || q.swept == []
  {
    if q.swept == [] {
      forall o | o in q.observed ensures FindGeneration(c.generations, o.identity) == Some(o) {
        FindsItself(c.generations, o);
      }
      assert CatalogMatchesRetired(c.generations, q);
    } else {
      var e := FindGeneration(c.generations, q.swept[0]).value;
      FindsItself(c.generations, e);
      assert e in q.observed && e.identity in q.swept;
      assert !CatalogMatchesRetired(c.generations, q);
    }
  }
}
