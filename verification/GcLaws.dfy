/**
 What the operations on the control object are for: how long a lease lives, who may end a barrier and when it may
 start deleting, what a registration and a retirement record.  Then the same over whole histories: a lease stands
 until its time is over, a barrier until its own, and no call of a stranger shortens either.
 */
module GcLaws {
  import opened Model
  import opened GcControl
  import opened GcHistory

  // ---------------------------------------------------------------- leases

  predicate LiveAt(c: Control, id: nat, t: nat) {
    exists l :: l in c.leases && l.id == id && l.expires > t
  }

  /** A barrier that has not run out. */
  predicate BarrierAt(c: Control, t: nat) {
    c.active.Some? && c.active.value.expires > t
  }

  /** The time up to which a grant of this duration lasts, in 64 bits. */
  predicate Within(t: nat, now: nat, duration: nat) {
    t < now + duration && t < MAX_U64
  }

  ghost predicate UniqueLeases(ls: seq<Lease>) {
    forall i, j :: 0 <= i < j < |ls| ==> ls[i].id != ls[j].id
  }

  /** Leases other than this one that are live at `now` are the same before and after. */
  ghost predicate OthersStand(c: Control, c': Control, id: nat, now: nat) {
    forall l: Lease :: l.id != id && l.expires > now ==> (l in c.leases <==> l in c'.leases)
  }

  /** Acquiring succeeds if and only if no barrier is in force; the lease is live exactly for its duration from
      `now`, is of the kind asked for, and carries the fence; every other live lease stands. */
  lemma AcquireGrants(w: World, c: Control, kind: LeaseKind, id: nat, now: nat, duration: nat)
    ensures var r := Apply(w, c, AcquireLease(kind, id, now, duration));
            && (r.Ok? <==> !BarrierAt(c, now))
            && (r.Err? ==> r.error == GcBarrierActive)
            && (r.Ok? ==>
                  && (forall t :: LiveAt(r.value, id, t) <==> Within(t, now, duration))
                  && (forall l :: l in r.value.leases && l.id == id ==> l.kind == kind && l.fence == c.fence)
                  && OthersStand(c, r.value, id, now)
                  && r.value == c.(leases := r.value.leases, active := None))
  {
    var r := Apply(w, c, AcquireLease(kind, id, now, duration));
    if r.Ok? {
      var mine := Lease(id, kind, c.fence, SatAdd(now, duration));
      assert mine in r.value.leases;
      forall t ensures LiveAt(r.value, id, t) <==> Within(t, now, duration) {
        if Within(t, now, duration) { assert mine.expires > t; }
      }
    }
  }

  /** Releasing takes away exactly the leases with this id. */
  lemma ReleaseDrops(w: World, c: Control, id: nat)
    ensures var r := Apply(w, c, ReleaseLease(id));
            && r.Ok? && r.value == c.(leases := r.value.leases)
            && forall l :: l in r.value.leases <==> l in c.leases && l.id != id
  {
  }

  lemma {:induction false} FirstOfItsId(ls: seq<Lease>, l: Lease)
    requires UniqueLeases(ls) && l in ls
    ensures FindLease(ls, l.id) == Some(l)
  {
    if ls[0] != l {
      var k :| 0 < k < |ls| && ls[k] == l;
      FirstOfItsId(ls[1..], l);
    }
  }

  lemma {:induction false} UnexpiredUnique(ls: seq<Lease>, now: nat)
    requires UniqueLeases(ls)
    ensures UniqueLeases(Unexpired(ls, now))
  {
    if ls != [] {
      UnexpiredUnique(ls[1..], now);
      forall l | l in Unexpired(ls[1..], now) ensures l.id != ls[0].id { assert l in ls[1..]; }
    }
  }

  lemma {:induction false} WithoutUnique(ls: seq<Lease>, id: nat)
    requires UniqueLeases(ls)
    ensures UniqueLeases(WithoutId(ls, id))
  {
    if ls != [] {
      WithoutUnique(ls[1..], id);
      forall l | l in WithoutId(ls[1..], id) ensures l.id != ls[0].id { assert l in ls[1..]; }
    }
  }

  /** Among unique ids, refreshing replaces the one lease and nothing else. */
  lemma {:induction false} SetReplaces(ls: seq<Lease>, id: nat, fence: nat, expires: nat)
    requires UniqueLeases(ls) && FindLease(ls, id).Some?
    ensures var held := FindLease(ls, id).value;
            forall l :: l in SetLease(ls, id, fence, expires) <==>
              l == held.(fence := fence, expires := expires) || (l in ls && l.id != id)
  {
    var after := SetLease(ls, id, fence, expires);
    assert ls == [ls[0]] + ls[1..];
    if ls[0].id != id {
      SetReplaces(ls[1..], id, fence, expires);
      assert after == [ls[0]] + SetLease(ls[1..], id, fence, expires);
    } else {
      assert after == [ls[0].(fence := fence, expires := expires)] + ls[1..];
      assert forall k :: 0 < k < |ls| ==> ls[k] == ls[1..][k - 1];
    }
  }

  lemma {:induction false} SetUnique(ls: seq<Lease>, id: nat, fence: nat, expires: nat)
    requires UniqueLeases(ls)
    ensures UniqueLeases(SetLease(ls, id, fence, expires))
  {
    if ls != [] && ls[0].id != id {
      SetUnique(ls[1..], id, fence, expires);
      forall l | l in SetLease(ls[1..], id, fence, expires) ensures l.id != ls[0].id {
        if l.id != id { assert l in ls[1..]; }
      }
    }
  }

  /** A live lease is the one a renewal finds. */
  lemma LiveIsFound(ls: seq<Lease>, id: nat, now: nat)
    requires UniqueLeases(ls)
    ensures UniqueLeases(Unexpired(ls, now))
    ensures forall l :: l in ls && l.id == id && l.expires > now <==> FindLease(Unexpired(ls, now), id) == Some(l)
  {
    UnexpiredUnique(ls, now);
    forall l | l in ls && l.id == id && l.expires > now ensures FindLease(Unexpired(ls, now), id) == Some(l) {
      FirstOfItsId(Unexpired(ls, now), l);
    }
  }

  /** Renewing succeeds if and only if no barrier in force is deleting and the lease, while it lives, was taken
      as one of this kind. */
  lemma RenewAccepts(w: World, c: Control, kind: LeaseKind, id: nat, now: nat, duration: nat)
    requires UniqueLeases(c.leases)
    ensures var r := Apply(w, c, RenewLease(kind, id, now, duration));
            && (r.Ok? <==>
                  && !(BarrierAt(c, now) && IsDeleting(c))
                  && forall l :: l in c.leases && l.id == id && l.expires > now ==> l.kind == kind)
            && (r.Err? ==> r.error == if BarrierAt(c, now) && IsDeleting(c) then GcBarrierActive else InvalidGc)
  {
    LiveIsFound(c.leases, id, now);
  }

  lemma RenewedLeases(ls: seq<Lease>, id: nat, now: nat, mine: Lease)
    requires UniqueLeases(ls) && mine.id == id
    requires forall l :: l in ls && l.id == id && l.expires > now ==> l.kind == mine.kind
    ensures var live := Unexpired(ls, now);
            var after := if FindLease(live, id).Some? then SetLease(live, id, mine.fence, mine.expires)
                         else live + [mine];
            forall l :: l in after <==> l == mine || (l in ls && l.expires > now && l.id != id)
  {
    LiveIsFound(ls, id, now);
    var live := Unexpired(ls, now);
    if FindLease(live, id).Some? { SetReplaces(live, id, mine.fence, mine.expires); }
  }

  /** A renewed lease, lapsed before or not, is live exactly for the duration from `now`; it is of the kind asked
      for and carries the fence; every other live lease stands. */
  lemma RenewGrants(w: World, c: Control, kind: LeaseKind, id: nat, now: nat, duration: nat)
    requires UniqueLeases(c.leases) && Apply(w, c, RenewLease(kind, id, now, duration)).Ok?
    ensures var c' := Apply(w, c, RenewLease(kind, id, now, duration)).value;
            && (forall t :: LiveAt(c', id, t) <==> Within(t, now, duration))
            && (forall l :: l in c'.leases && l.id == id ==> l.kind == kind && l.fence == c.fence)
            && OthersStand(c, c', id, now)
  {
    RenewAccepts(w, c, kind, id, now, duration);
    var mine := Lease(id, kind, c.fence, SatAdd(now, duration));
    RenewedLeases(c.leases, id, now, mine);
    var c' := Apply(w, c, RenewLease(kind, id, now, duration)).value;
    assert mine in c'.leases;
    forall t ensures LiveAt(c', id, t) <==> Within(t, now, duration) {
      if Within(t, now, duration) { assert mine.expires > t; }
    }
  }

  /** What a renewal does to the rest of the control: a draining barrier in force stays that very barrier and is
      in force as long as it would have been, or a default lease longer than the renewed one. */
  lemma RenewKeepsBarrier(w: World, c: Control, kind: LeaseKind, id: nat, now: nat, duration: nat)
    requires Apply(w, c, RenewLease(kind, id, now, duration)).Ok?
    ensures var c' := Apply(w, c, RenewLease(kind, id, now, duration)).value;
            && c' == c.(leases := c'.leases, active := c'.active)
            && (c'.active.Some? <==> BarrierAt(c, now))
            && (BarrierAt(c, now) ==>
                  && c'.active.value == c.active.value.(expires := c'.active.value.expires)
                  && forall t: nat :: t < MAX_U64 ==>
                       (BarrierAt(c', t) <==> BarrierAt(c, t) || t < now + duration + DEFAULT_LEASE_MS))
  {
  }

  // ---------------------------------------------------------------- the barrier

  predicate NamedBy(b: Barrier, p: Plan) {
    b.operation == p.operation && b.planHash == p.hash && b.fence == ExecutionFence(p)
  }

  /** Whose barrier it is. */
  predicate SameBarrier(a: Barrier, b: Barrier) {
    a.operation == b.operation && a.planHash == b.planHash && a.fence == b.fence && a.root == b.root
  }

  /** An abort succeeds if and only if there is no barrier or it is that operation's; then only the barrier goes. */
  lemma AbortExactly(w: World, c: Control, operation: nat)
    ensures var r := Apply(w, c, Abort(operation));
            && (r.Ok? <==> c.active.Some? ==> c.active.value.operation == operation)
            && r == if r.Ok? then Ok(c.(active := None)) else Err(GcBarrierActive)
  {
  }

  /** Clearing succeeds if and only if there is no barrier or it is that plan's; then the barrier goes, and of the
      leases those that had lapsed when the plan was made. */
  lemma ClearExactly(w: World, c: Control, p: Plan)
    ensures var r := Apply(w, c, ClearBarrier(p));
            && (r.Ok? <==> c.active.Some? ==> NamedBy(c.active.value, p))
            && (r.Err? ==> r.error == GcPlanStale)
            && (r.Ok? ==>
                  && r.value == c.(active := None, leases := r.value.leases)
                  && forall l :: l in r.value.leases <==> l in c.leases && (c.active.Some? ==> l.expires > p.createdAt))
  {
  }

  lemma {:induction false} LatestIsLatest(ls: seq<Lease>)
    requires ls != []
    ensures forall l :: l in ls ==> l.expires <= LatestExpiry(ls)
    ensures exists l :: l in ls && l.expires == LatestExpiry(ls)
  {
    if |ls| > 1 {
      LatestIsLatest(ls[1..]);
      var l :| l in ls[1..] && l.expires == LatestExpiry(ls[1..]);
      assert l in ls && ls[0] in ls;
    } else {
      assert ls[0] in ls;
    }
  }

  /** No lease is live. */
  predicate Drained(c: Control, t: nat) {
    forall l :: l in c.leases ==> l.expires <= t
  }

  /** The plan's own barrier is in force and the root is still the plan's. */
  predicate Commands(c: Control, p: Plan, t: nat) {
    BarrierAt(c, t) && NamedBy(c.active.value, p) && c.active.value.root == p.root && c.root == Some(p.root)
  }

  lemma DrainedExactly(ls: seq<Lease>, now: nat)
    ensures Unexpired(ls, now) == [] <==> forall l :: l in ls ==> l.expires <= now
  {
    if Unexpired(ls, now) != [] {
      assert Unexpired(ls, now)[0] in Unexpired(ls, now);
    } else {
      forall l | l in ls ensures l.expires <= now { assert l !in Unexpired(ls, now); }
    }
  }

  /** The delete phase is entered if and only if the plan commands the barrier and either has entered before or no
      lease is live; only the phase changes. */
  lemma EnterExactly(w: World, c: Control, p: Plan, now: nat)
    ensures var r := Apply(w, c, EnterDelete(p, now));
            && (r.Ok? <==> Commands(c, p, now) && (IsDeleting(c) || Drained(c, now)))
            && (r.Ok? ==> r.value == c.(active := r.value.active) && IsDeleting(r.value)
                          && r.value.active.value == c.active.value.(phase := Deleting))
            && (!Commands(c, p, now) ==> r == Err(GcPlanStale))
  {
    DrainedExactly(c.leases, now);
  }

  /** A refusal on account of leases names the time to wait for: at no moment before it would the plan get in, and
      from then on, while its barrier lasts, it would. */
  lemma BusyUntilExactly(w: World, c: Control, p: Plan, now: nat, t: nat) returns (until: nat)
    requires Commands(c, p, now) && !IsDeleting(c) && !Drained(c, now)
    requires now <= t && Commands(c, p, t)
    ensures Apply(w, c, EnterDelete(p, now)) == Err(GcBarrierBusy(until))
    ensures Apply(w, c, EnterDelete(p, t)).Ok? <==> t >= until
  {
    until := LatestExpiry(Unexpired(c.leases, now));
    DrainedExactly(c.leases, now);
    EnterExactly(w, c, p, t);
    DrainedFrom(c, now, t);
  }

  lemma DrainedFrom(c: Control, now: nat, t: nat)
    requires now <= t && Unexpired(c.leases, now) != []
    ensures Drained(c, t) <==> t >= LatestExpiry(Unexpired(c.leases, now))
  {
    var live := Unexpired(c.leases, now);
    LatestIsLatest(live);
    var last :| last in live && last.expires == LatestExpiry(live);
    if t >= last.expires {
      forall l | l in c.leases ensures l.expires <= t { if l.expires > now { assert l in live; } }
    } else {
      assert last in c.leases;
    }
  }

  /** The check before each deletion passes if and only if the plan commands a barrier that is deleting and no
      lease is live. */
  lemma FenceCheckExactly(c: Control, p: Plan, now: nat)
    ensures ValidateFence(c, p, now).Ok? <==> Commands(c, p, now) && IsDeleting(c) && Drained(c, now)
    ensures ValidateFence(c, p, now).Err? && !(Commands(c, p, now) && IsDeleting(c)) ==>
              ValidateFence(c, p, now) == Err(GcPlanStale)
  {
    DrainedExactly(c.leases, now);
  }

  /** A barrier in force is handed only to its own plan, unchanged.  Otherwise it is taken if and only if the root
      is the plan's and the plan is fresh or resumed; it is then draining, is the plan's, raises the fence to the
      plan's execution fence, lasts for a default lease, and of the rest only lapsed leases go. */
  lemma BarrierTakenExactly(w: World, c: Control, p: Plan, now: nat)
    ensures var r := Apply(w, c, AcquireBarrier(p, now));
            && (BarrierAt(c, now) ==>
                  r == if c.active.value.planHash == p.hash && c.active.value.root == p.root
                          && c.active.value.fence == ExecutionFence(p)
                       then Ok(c) else Err(GcBarrierActive))
            && (!BarrierAt(c, now) ==>
                  && (r.Ok? <==> c.root == Some(p.root) && (FreshPlan(w, c, p) || ResumedPlan(c, p)))
                  && (r.Err? ==> r.error == GcPlanStale))
  {
  }

  /** The catalog a plan observed, but for what has been retired of the generations it sweeps. */
  ghost predicate OnlySweptChanged(c: Control, p: Plan) {
    && |c.generations| == |p.observed| && UniqueIdentities(p.observed)
    && forall o :: o in p.observed ==>
         var e := FindGeneration(c.generations, o.identity);
         && e.Some? && e.value.manifestKey == o.manifestKey && e.value.registeredAt == o.registeredAt
         && (o.identity !in p.swept ==> e.value.lifecycle == o.lifecycle)
  }

  /** A plan whose barrier is gone takes it up again, at its execution fence, if and only if it has retired all it
      sweeps: an execution that lost its barrier before retirement cannot be resumed, one that lost it after can. */
  lemma ResumesExactly(w: World, c: Control, p: Plan, now: nat)
    requires !BarrierAt(c, now) && c.root == Some(p.root) && c.fence == ExecutionFence(p) != p.fence
    requires Genuine(w, p) && OnlySweptChanged(c, p)
    ensures Apply(w, c, AcquireBarrier(p, now)).Ok? <==> forall id :: id in p.swept ==> RetiredBy(c, id, p.hash)
  {
    BarrierTakenExactly(w, c, p, now);
    if ResumedPlan(c, p) {
      forall id | id in p.swept ensures RetiredBy(c, id, p.hash) {
        var o :| o in p.observed && o.identity == id;
      }
    }
  }

  lemma BarrierTaken(w: World, c: Control, p: Plan, now: nat)
    requires Apply(w, c, AcquireBarrier(p, now)).Ok? && !BarrierAt(c, now)
    ensures var c' := Apply(w, c, AcquireBarrier(p, now)).value;
            && !IsDeleting(c') && c'.fence == ExecutionFence(p)
            && (forall t :: Commands(c', p, t) <==> Within(t, now, DEFAULT_LEASE_MS))
            && c' == c.(fence := c'.fence, leases := c'.leases, active := c'.active)
            && forall l :: l in c'.leases <==> l in c.leases && l.expires > now
  {
  }

  // ---------------------------------------------------------------- the catalog

  /** An accepted root is the root; nothing else that is in force changes.  It is accepted if and only if no
      barrier is in force and it is cataloged. */
  lemma SetRootExactly(w: World, c: Control, root: Identity, now: nat)
    ensures var r := Apply(w, c, SetRoot(root, now));
            && (r.Ok? <==> !BarrierAt(c, now) && FindGeneration(c.generations, root).Some?)
            && (r.Err? ==> r.error == if BarrierAt(c, now) then GcBarrierActive else InvalidGc)
            && (r.Ok? ==>
                  && r.value.root == Some(root)
                  && r.value == c.(root := r.value.root, leases := r.value.leases, active := None)
                  && forall l :: l in r.value.leases <==> l in c.leases && l.expires > now)
  {
  }

  /** Registration adds an active entry with its time and manifest key, or finds one there; it becomes the root
      only where there is none; no other entry, no lease and no barrier changes. */
  lemma RegisterExactly(w: World, c: Control, id: Identity, now: nat)
    requires UniqueIdentities(c.generations)
    ensures var r := Apply(w, c, Register(id, now));
            && r.Ok? && r.value == c.(generations := r.value.generations, root := r.value.root)
            && (forall g :: FindGeneration(r.value.generations, g) ==
                  if g == id && FindGeneration(c.generations, id).None?
                  then Some(CatalogEntry(id, ManifestKey(id), now, Active)) else FindGeneration(c.generations, g))
            && (FindGeneration(c.generations, id).Some? ==> r.value == c)
            && r.value.root == if c.root.None? && FindGeneration(c.generations, id).None? then Some(id) else c.root
  {
    if FindGeneration(c.generations, id).None? {
      var e := CatalogEntry(id, ManifestKey(id), now, Active);
      var all := c.generations + [e];
      forall i, j | 0 <= i < j < |all| ensures all[i].identity != all[j].identity {
        if j == |all| - 1 { assert all[i] in c.generations; }
      }
      forall g ensures FindGeneration(SortCatalog(all), g)
                       == if g == id then Some(e) else FindGeneration(c.generations, g)
      {
        SortCatalogFinds(all, g);
        FindInConcat(c.generations, [e], g);
      }
    }
  }

  ghost predicate InOrder(gens: seq<CatalogEntry>) {
    forall i, j :: 0 <= i < j < |gens| ==> Precedes(gens[i].identity, gens[j].identity)
  }

  lemma {:induction false} InsertAdds(e: CatalogEntry, gens: seq<CatalogEntry>)
    ensures multiset(InsertSorted(e, gens)) == multiset(gens) + multiset{e}
  {
    if gens != [] && Precedes(gens[0].identity, e.identity) {
      InsertAdds(e, gens[1..]);
      assert gens == [gens[0]] + gens[1..];
    }
  }

  lemma {:induction false} InsertInOrder(e: CatalogEntry, gens: seq<CatalogEntry>)
    requires InOrder(gens)
    ensures InOrder(InsertSorted(e, gens))
  {
    if gens != [] && Precedes(gens[0].identity, e.identity) {
      InsertInOrder(e, gens[1..]);
      InsertAdds(e, gens[1..]);
      var rest := InsertSorted(e, gens[1..]);
      forall k | 0 <= k < |rest| ensures Precedes(gens[0].identity, rest[k].identity) {
        assert rest[k] in multiset(rest);
        if rest[k] != e { assert rest[k] in multiset(gens[1..]); }
      }
    }
  }

  /** The catalog is put in order, and sorting adds and drops nothing. */
  lemma {:induction false} SortInOrder(gens: seq<CatalogEntry>)
    ensures InOrder(SortCatalog(gens)) && multiset(SortCatalog(gens)) == multiset(gens)
  {
    if gens != [] {
      var front, last := gens[..|gens| - 1], gens[|gens| - 1];
      SortInOrder(front);
      InsertInOrder(last, SortCatalog(front));
      InsertAdds(last, SortCatalog(front));
      assert gens == front + [last];
    }
  }

  // ---------------------------------------------------------------- retirement

  /** The generation is cataloged and not retired by another plan. */
  predicate MayRetire(gens: seq<CatalogEntry>, id: Identity, planHash: Hash) {
    var e := FindGeneration(gens, id);
    e.Some? && (e.value.lifecycle.Retired? ==> e.value.lifecycle.planHash == planHash)
  }

  /** The entry after its retirement: an active one records the plan and the time, a retired one stays. */
  function AfterRetiring(e: CatalogEntry, planHash: Hash, now: nat): CatalogEntry {
    if e.lifecycle.Active? then e.(lifecycle := Retired(planHash, now)) else e
  }

  lemma {:induction false} RetireOneExactly(gens: seq<CatalogEntry>, id: Identity, planHash: Hash, now: nat,
                                            g: Identity)
    ensures var r := RetireOne(gens, id, planHash, now);
            && (r.Ok? <==> MayRetire(gens, id, planHash))
            && (r.Ok? ==>
                  FindGeneration(r.value, g) ==
                    if g == id then Some(AfterRetiring(FindGeneration(gens, id).value, planHash, now))
                    else FindGeneration(gens, g))
            && (r.Err? ==> r.error == GcPlanStale)
  {
    if gens != [] && gens[0].identity != id { RetireOneExactly(gens[1..], id, planHash, now, g); }
  }

  /** All swept generations are retired together, if and only if each may be; no other entry changes. */
  lemma {:induction false} RetireAllExactly(gens: seq<CatalogEntry>, swept: seq<Identity>, planHash: Hash, now: nat)
    ensures var r := RetireAll(gens, swept, planHash, now);
            && (r.Ok? <==> forall id :: id in swept ==> MayRetire(gens, id, planHash))
            && (r.Ok? ==> forall g ::
                  FindGeneration(r.value, g) ==
                    if g in swept then Some(AfterRetiring(FindGeneration(gens, g).value, planHash, now))
                    else FindGeneration(gens, g))
            && (r.Err? ==> r.error == GcPlanStale)
    decreases |swept|
  {
    if swept != [] {
      var one := RetireOne(gens, swept[0], planHash, now);
      RetireOneExactly(gens, swept[0], planHash, now, swept[0]);
      if one.Ok? {
        forall g | g != swept[0] ensures FindGeneration(one.value, g) == FindGeneration(gens, g) {
          RetireOneExactly(gens, swept[0], planHash, now, g);
        }
        RetireAllExactly(one.value, swept[1..], planHash, now);
        assert forall id :: id in swept <==> id == swept[0] || id in swept[1..];
      } else {
        assert swept[0] in swept;
      }
    }
  }

  /** A plan's retirement succeeds if and only if its barrier is deleting and every generation it sweeps is
      cataloged and not retired by another plan; it records plan and time in exactly the active ones. */
  lemma RetireExactly(w: World, c: Control, p: Plan, now: nat)
    ensures var r := Apply(w, c, RetirePlan(p, now));
            && (r.Ok? <==>
                  && IsDeleting(c) && c.active.value.planHash == p.hash && c.active.value.fence == ExecutionFence(p)
                  && forall id :: id in p.swept ==> MayRetire(c.generations, id, p.hash))
            && (r.Err? ==> r.error == GcPlanStale)
            && (r.Ok? ==>
                  && r.value == c.(generations := r.value.generations)
                  && forall g :: FindGeneration(r.value.generations, g) ==
                       if g in p.swept then Some(AfterRetiring(FindGeneration(c.generations, g).value, p.hash, now))
                       else FindGeneration(c.generations, g))
  {
    RetireAllExactly(c.generations, p.swept, p.hash, now);
  }

  // ---------------------------------------------------------------- one execution, undisturbed

  lemma FreshPlanEnters(w: World, c: Control, p: Plan, t: nat) returns (held: Control, entered: Control)
    requires !BarrierAt(c, t) && c.root == Some(p.root) && FreshPlan(w, c, p) && Drained(c, t) && t < MAX_U64
    ensures Apply(w, c, AcquireBarrier(p, t)) == Ok(held)
    ensures Apply(w, held, EnterDelete(p, t)) == Ok(entered)
    ensures Commands(entered, p, t) && IsDeleting(entered)
    ensures entered == Control(ExecutionFence(p), c.root, c.generations, [], entered.active)
  {
    BarrierTakenExactly(w, c, p, t);
    BarrierTaken(w, c, p, t);
    held := Apply(w, c, AcquireBarrier(p, t)).value;
    assert Within(t, t, DEFAULT_LEASE_MS) && Commands(held, p, t);
    EnterExactly(w, held, p, t);
    entered := Apply(w, held, EnterDelete(p, t)).value;
    DrainedExactly(c.leases, t);
  }

  lemma DeletingPlanFinishes(w: World, c: Control, p: Plan, t: nat) returns (retired: Control, cleared: Control)
    requires Commands(c, p, t) && IsDeleting(c) && c.leases == []
    requires forall id :: id in p.swept ==> MayRetire(c.generations, id, p.hash)
    ensures Apply(w, c, RetirePlan(p, t)) == Ok(retired)
    ensures ValidateFence(retired, p, t).Ok?
    ensures Apply(w, retired, ClearBarrier(p)) == Ok(cleared)
    ensures cleared == Control(c.fence, c.root, cleared.generations, [], None)
    ensures forall g :: g !in p.swept ==> FindGeneration(cleared.generations, g) == FindGeneration(c.generations, g)
    ensures forall g :: g in p.swept ==>
              && FindGeneration(c.generations, g).Some?
              && FindGeneration(cleared.generations, g)
                 == Some(AfterRetiring(FindGeneration(c.generations, g).value, p.hash, t))
  {
    RetireExactly(w, c, p, t);
    retired := Apply(w, c, RetirePlan(p, t)).value;
    FenceCheckExactly(retired, p, t);
    ClearExactly(w, retired, p);
    cleared := Apply(w, retired, ClearBarrier(p)).value;
    assert Unexpired([], p.createdAt) == [];
  }

  // ---------------------------------------------------------------- whole histories

  /** Somebody may end this barrier: an abort of its operation, or a clear by its plan. */
  predicate Ends(e: Event, b: Barrier) {
    e == Do(Abort(b.operation)) || (e.Do? && e.op.ClearBarrier? && NamedBy(b, e.op.plan))
  }

  /** A barrier changes only by being extended or entering its delete phase, and disappears only when a caller's
      clock has reached its expiry, or by an abort or a clear that names it. */
  lemma BarrierEndsOnlyBy(w: World, h: History, h': History, e: Event)
    requires Step(w, h, h', e) && h.control.active.Some?
    ensures var b := h.control.active.value;
            || (&& h'.control.active.Some? && SameBarrier(b, h'.control.active.value)
                && b.expires <= h'.control.active.value.expires
                && (b.phase.Deleting? ==> h'.control.active.value.phase.Deleting?))
            || (e.Do? && b.expires <= ReadingOf(e.op) <= h.clock)
            || Ends(e, b)
  {
  }

  /** Until its time is over, and unless an abort or a clear names it, a barrier stands. */
  lemma {:induction false} BarrierStands(w: World, hs: seq<History>, es: seq<Event>, i: nat, j: nat, b: Barrier)
    requires IsRun(w, hs, es) && i <= j < |hs| && hs[i].control.active == Some(b)
    requires hs[j].clock < b.expires && forall k :: i <= k < j ==> !Ends(es[k], b)
    ensures hs[j].control.active.Some? && SameBarrier(b, hs[j].control.active.value)
    ensures b.expires <= hs[j].control.active.value.expires
    decreases j
  {
    if i < j {
      assert Step(w, hs[j - 1], hs[j], es[j - 1]);
      BarrierStands(w, hs, es, i, j - 1, b);
      BarrierEndsOnlyBy(w, hs[j - 1], hs[j], es[j - 1]);
      var now := hs[j - 1].control.active.value;
      assert !Ends(es[j - 1], now);
    }
  }

  /** The holder's own calls. */
  predicate OnLease(e: Event, id: nat) {
    e.Do? && match e.op
             case AcquireLease(_, x, _, _) => x == id
             case ReleaseLease(x) => x == id
             case RenewLease(_, x, _, _) => x == id
             case _ => false
  }

  /** Plans are made in the past. */
  predicate PlanMadeBefore(e: Event, clock: nat) {
    e.Do? && e.op.ClearBarrier? ==> e.op.plan.createdAt <= clock
  }

  lemma LeaseStandsOneStep(w: World, h: History, h': History, e: Event, l: Lease)
    requires Step(w, h, h', e) && l in h.control.leases && h.clock < l.expires
    requires !OnLease(e, l.id) && PlanMadeBefore(e, h.clock)
    ensures l in h'.control.leases
  {
  }

  /** Until its time is over a lease stands, whatever others do: only calls that name it change it. */
  lemma {:induction false} LeaseStands(w: World, hs: seq<History>, es: seq<Event>, i: nat, j: nat, l: Lease)
    requires IsRun(w, hs, es) && i <= j < |hs| && l in hs[i].control.leases && hs[j].clock < l.expires
    requires forall k :: i <= k < j ==> !OnLease(es[k], l.id) && PlanMadeBefore(es[k], hs[k].clock)
    ensures l in hs[j].control.leases
    decreases j
  {
    if i < j {
      assert Step(w, hs[j - 1], hs[j], es[j - 1]);
      LeaseStands(w, hs, es, i, j - 1, l);
      LeaseStandsOneStep(w, hs[j - 1], hs[j], es[j - 1], l);
    }
  }

  lemma {:induction false} RetireOneIdentities(gens: seq<CatalogEntry>, id: Identity, planHash: Hash, now: nat)
    requires RetireOne(gens, id, planHash, now).Ok?
    ensures var next := RetireOne(gens, id, planHash, now).value;
            |next| == |gens| && forall k :: 0 <= k < |gens| ==> next[k].identity == gens[k].identity
  {
    if gens[0].identity != id { RetireOneIdentities(gens[1..], id, planHash, now); }
  }

  lemma {:induction false} RetireAllIdentities(gens: seq<CatalogEntry>, swept: seq<Identity>, planHash: Hash, now: nat)
    requires RetireAll(gens, swept, planHash, now).Ok?
    ensures var next := RetireAll(gens, swept, planHash, now).value;
            |next| == |gens| && forall k :: 0 <= k < |gens| ==> next[k].identity == gens[k].identity
    decreases |swept|
  {
    if swept != [] {
      RetireOneIdentities(gens, swept[0], planHash, now);
      RetireAllIdentities(RetireOne(gens, swept[0], planHash, now).value, swept[1..], planHash, now);
    }
  }

  lemma OneMoreUnique(ls: seq<Lease>, l: Lease)
    requires UniqueLeases(ls) && forall x :: x in ls ==> x.id != l.id
    ensures UniqueLeases(ls + [l])
  {
  }

  lemma AcquiredUnique(ls: seq<Lease>, now: nat, l: Lease)
    requires UniqueLeases(ls)
    ensures UniqueLeases(WithoutId(Unexpired(ls, now), l.id) + [l])
  {
    UnexpiredUnique(ls, now);
    WithoutUnique(Unexpired(ls, now), l.id);
    OneMoreUnique(WithoutId(Unexpired(ls, now), l.id), l);
  }

  lemma RenewedUnique(ls: seq<Lease>, now: nat, l: Lease)
    requires UniqueLeases(ls)
    ensures UniqueLeases(SetLease(Unexpired(ls, now), l.id, l.fence, l.expires))
    ensures FindLease(Unexpired(ls, now), l.id).None? ==> UniqueLeases(Unexpired(ls, now) + [l])
  {
    UnexpiredUnique(ls, now);
    SetUnique(Unexpired(ls, now), l.id, l.fence, l.expires);
    if FindLease(Unexpired(ls, now), l.id).None? { OneMoreUnique(Unexpired(ls, now), l); }
  }

  lemma OpKeepsLeasesUnique(w: World, c: Control, op: ControlOp)
    requires UniqueLeases(c.leases) && Apply(w, c, op).Ok?
    ensures UniqueLeases(Apply(w, c, op).value.leases)
  {
    if op.AcquireLease? {
      AcquiredUnique(c.leases, op.now, Lease(op.id, op.kind, c.fence, SatAdd(op.now, op.duration)));
    } else if op.ReleaseLease? {
      WithoutUnique(c.leases, op.id);
    } else if op.RenewLease? {
      RenewedUnique(c.leases, op.now, Lease(op.id, op.kind, c.fence, SatAdd(op.now, op.duration)));
    } else if op.ClearBarrier? {
      UnexpiredUnique(c.leases, op.plan.createdAt);
    } else {
      UnexpiredUnique(c.leases, ReadingOf(op));
    }
  }

  lemma OpKeepsCatalogInOrder(w: World, c: Control, op: ControlOp)
    requires InOrder(c.generations) && Apply(w, c, op).Ok?
    ensures InOrder(Apply(w, c, op).value.generations)
  {
    if op.Register? {
      SortInOrder(c.generations + [CatalogEntry(op.identity, ManifestKey(op.identity), op.now, Active)]);
    } else if op.RetirePlan? {
      RetireAllIdentities(c.generations, op.plan.swept, op.plan.hash, op.now);
    }
  }

  /** In every reachable control state no two leases share an id, which the renewal relies on, and the catalog is
      in order, which its digest relies on. */
  lemma {:induction false} LeasesUniqueCatalogInOrder(w: World, hs: seq<History>, es: seq<Event>, i: nat)
    requires IsRun(w, hs, es) && i < |hs|
    ensures UniqueLeases(hs[i].control.leases) && InOrder(hs[i].control.generations)
  {
    if i > 0 {
      LeasesUniqueCatalogInOrder(w, hs, es, i - 1);
      assert Step(w, hs[i - 1], hs[i], es[i - 1]);
      if es[i - 1].Do? {
        OpKeepsLeasesUnique(w, hs[i - 1].control, es[i - 1].op);
        OpKeepsCatalogInOrder(w, hs[i - 1].control, es[i - 1].op);
      }
    }
  }
}
