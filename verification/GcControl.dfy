/**
 The garbage-collection control object: leases, the generation catalog, the fence and the
 Draining/Deleting barrier.

 Every operation loads the control object, changes the loaded copy and writes it back by
 compare-and-swap.  Since each write gives a fresh version, a swap that succeeds replaces exactly the
 value that was loaded, so an operation is a function from the current control to the next one
 (`Apply`), and an operation that fails changes nothing.  `now` is whatever clock reading the caller
 took; it may lag behind the clock but never leads it.
 */
module GcControl {
  import opened Model

  const DEFAULT_LEASE_MS: nat := 60_000

  function ExecutionFence(p: Plan): nat {
    SatAdd(p.fence, 1)
  }

  // ---------------------------------------------------------------- leases

  function Unexpired(ls: seq<Lease>, now: nat): (r: seq<Lease>)
    ensures forall l :: l in r <==> l in ls && l.expires > now
  {
    if ls == [] then [] else (if ls[0].expires > now then [ls[0]] else []) + Unexpired(ls[1..], now)
  }

  function WithoutId(ls: seq<Lease>, id: nat): (r: seq<Lease>)
    ensures forall l :: l in r <==> l in ls && l.id != id
  {
    if ls == [] then [] else (if ls[0].id != id then [ls[0]] else []) + WithoutId(ls[1..], id)
  }

  function FindLease(ls: seq<Lease>, id: nat): (r: Option<Lease>)
    ensures r.Some? ==> r.value in ls && r.value.id == id
    ensures r.None? ==> forall l :: l in ls ==> l.id != id
  {
    if ls == [] then None else if ls[0].id == id then Some(ls[0]) else FindLease(ls[1..], id)
  }

  /** Rewrites the first lease with this id. */
  function SetLease(ls: seq<Lease>, id: nat, fence: nat, expires: nat): (r: seq<Lease>)
    ensures forall l :: l in r ==> l in ls || (l.id == id && l.expires == expires)
    ensures forall l :: l in ls && l.id != id ==> l in r
    ensures (exists l :: l in ls && l.id == id) ==> exists l :: l in r && l.id == id && l.expires == expires
  {
    if ls == [] then []
    else if ls[0].id == id then
      var head := ls[0].(fence := fence, expires := expires);
      assert head in [head] + ls[1..];
      [head] + ls[1..]
    else
      var rest := SetLease(ls[1..], id, fence, expires);
      assert forall l :: l in rest ==> l in [ls[0]] + rest;
      [ls[0]] + rest
  }

  function LatestExpiry(ls: seq<Lease>): nat {
    if ls == [] then 0 else Max(ls[0].expires, LatestExpiry(ls[1..]))
  }

  // ---------------------------------------------------------------- the catalog

  function FindGeneration(gens: seq<CatalogEntry>, id: Identity): (r: Option<CatalogEntry>)
    ensures r.Some? ==> r.value in gens && r.value.identity == id
    ensures r.None? <==> forall e :: e in gens ==> e.identity != id
  {
    if gens == [] then None
    else if gens[0].identity == id then Some(gens[0])
    else FindGeneration(gens[1..], id)
  }

  predicate IsRetired(c: Control, id: Identity) {
    var e := FindGeneration(c.generations, id);
    e.Some? && e.value.lifecycle.Retired?
  }

  predicate RetiredBy(c: Control, id: Identity, planHash: Hash) {
    IsRetired(c, id) && FindGeneration(c.generations, id).value.lifecycle.planHash == planHash
  }

  /** The catalog order: epoch, configuration, recovery generation. */
  predicate Precedes(a: Identity, b: Identity) {
    a.epoch < b.epoch
    || (a.epoch == b.epoch
        && (a.config < b.config || (a.config == b.config && a.generation <= b.generation)))
  }

  function InsertSorted(e: CatalogEntry, gens: seq<CatalogEntry>): seq<CatalogEntry> {
    if gens == [] then [e]
    else if Precedes(gens[0].identity, e.identity) then [gens[0]] + InsertSorted(e, gens[1..])
    else [e] + gens
  }

  /** A stable sort by the catalog order. */
  function SortCatalog(gens: seq<CatalogEntry>): seq<CatalogEntry> {
    if gens == [] then [] else InsertSorted(gens[|gens| - 1], SortCatalog(gens[..|gens| - 1]))
  }

  /** Marks one generation retired by this plan; an absent one or one retired by another plan is stale. */
  function RetireOne(gens: seq<CatalogEntry>, id: Identity, planHash: Hash, now: nat): Result<seq<CatalogEntry>> {
    if gens == [] then Err(GcPlanStale)
    else if gens[0].identity == id then
      match gens[0].lifecycle
      case Active => Ok([gens[0].(lifecycle := Retired(planHash, now))] + gens[1..])
      case Retired(h, _) => if h == planHash then Ok(gens) else Err(GcPlanStale)
    else match RetireOne(gens[1..], id, planHash, now)
         case Err(e) => Err(e)
         case Ok(rest) => Ok([gens[0]] + rest)
  }

  function RetireAll(gens: seq<CatalogEntry>, swept: seq<Identity>, planHash: Hash, now: nat)
    : Result<seq<CatalogEntry>>
    decreases |swept|
  {
    if swept == [] then Ok(gens) else
    match RetireOne(gens, swept[0], planHash, now)
    case Err(e) => Err(e)
    case Ok(next) => RetireAll(next, swept[1..], planHash, now)
  }

  /** The current catalog is the observed one with exactly the swept generations retired by the plan. */
  predicate CatalogMatchesRetired(gens: seq<CatalogEntry>, p: Plan) {
    && |gens| == |p.observed|
    && forall o :: o in p.observed ==>
         var current := FindGeneration(gens, o.identity);
         && current.Some?
         && current.value.manifestKey == o.manifestKey
         && current.value.registeredAt == o.registeredAt
         && (if o.identity in p.swept
             then current.value.lifecycle.Retired? && current.value.lifecycle.planHash == p.hash
             else current.value.lifecycle == o.lifecycle)
  }

  // ---------------------------------------------------------------- operations

  datatype ControlOp =
    | AcquireLease(kind: LeaseKind, id: nat, now: nat, duration: nat)
    | ReleaseLease(id: nat)
    | RenewLease(kind: LeaseKind, id: nat, now: nat, duration: nat)
    | Register(identity: Identity, now: nat)
    | SetRoot(identity: Identity, now: nat)
    | Abort(operation: nat)
    | AcquireBarrier(plan: Plan, now: nat)
    | EnterDelete(plan: Plan, now: nat)
    | RetirePlan(plan: Plan, now: nat)
    | ClearBarrier(plan: Plan)

  function Expire(c: Control, now: nat): Control {
    c.(leases := Unexpired(c.leases, now),
       active := if c.active.Some? && c.active.value.expires <= now then None else c.active)
  }

  predicate HoldsBarrier(c: Control, p: Plan) {
    && c.active.Some?
    && c.active.value.planHash == p.hash
    && c.active.value.root == p.root
    && c.active.value.fence == ExecutionFence(p)
  }

  function ApplyAcquireLease(c: Control, kind: LeaseKind, id: nat, now: nat, duration: nat): Result<Control> {
    var e := Expire(c, now);
    if e.active.Some? then Err(GcBarrierActive)
    else Ok(e.(leases := WithoutId(e.leases, id) + [Lease(id, kind, e.fence, SatAdd(now, duration))]))
  }

  function ApplyRenewLease(c: Control, kind: LeaseKind, id: nat, now: nat, duration: nat): Result<Control> {
    var e := Expire(c, now);
    if e.active.Some? && e.active.value.phase == Deleting then Err(GcBarrierActive)
    else
      var expires := SatAdd(now, duration);
      var held := FindLease(e.leases, id);
      if held.Some? && held.value.kind != kind then Err(InvalidGc)
      else
        var leases := if held.Some? then SetLease(e.leases, id, e.fence, expires)
                      else e.leases + [Lease(id, kind, e.fence, expires)];
        var active := if e.active.None? then None
                      else Some(e.active.value.(
                        expires := Max(e.active.value.expires, SatAdd(expires, DEFAULT_LEASE_MS))));
        Ok(e.(leases := leases, active := active))
  }

  function ApplyRegister(c: Control, id: Identity, now: nat): Result<Control> {
    if FindGeneration(c.generations, id).Some? then Ok(c)
    else Ok(c.(generations := SortCatalog(c.generations + [CatalogEntry(id, ManifestKey(id), now, Active)]),
               root := if c.root.None? then Some(id) else c.root))
  }

  function ApplySetRoot(c: Control, root: Identity, now: nat): Result<Control> {
    var e := Expire(c, now);
    if e.active.Some? then Err(GcBarrierActive)
    else if FindGeneration(e.generations, root).None? then Err(InvalidGc)
    else Ok(e.(root := Some(root)))
  }

  function ApplyAbort(c: Control, operation: nat): Result<Control> {
    if c.active.None? then Ok(c)
    else if c.active.value.operation != operation then Err(GcBarrierActive)
    else Ok(c.(active := None))
  }

  predicate FreshPlan(w: World, c: Control, p: Plan) {
    c.fence == p.fence && w.catalogHash(c.generations) == p.catalogSha
  }

  predicate ResumedPlan(c: Control, p: Plan) {
    c.fence == ExecutionFence(p) && CatalogMatchesRetired(c.generations, p)
  }

  function ApplyAcquireBarrier(w: World, c: Control, p: Plan, now: nat): Result<Control> {
    var e := Expire(c, now);
    if e.active.Some? then
      if HoldsBarrier(e, p) then Ok(c) else Err(GcBarrierActive)
    else if e.root != Some(p.root) || (!FreshPlan(w, e, p) && !ResumedPlan(e, p)) then Err(GcPlanStale)
    else Ok(e.(fence := ExecutionFence(p),
               active := Some(Barrier(p.operation, p.hash, ExecutionFence(p), p.root,
                                      SatAdd(now, DEFAULT_LEASE_MS), Draining))))
  }

  /** The checks shared by entering the delete phase and by each deletion. */
  predicate BarrierCurrent(c: Control, p: Plan, now: nat) {
    && HoldsBarrier(c, p)
    && c.active.value.operation == p.operation
    && c.root == Some(p.root)
    && c.active.value.expires > now
  }

  function ApplyEnterDelete(c: Control, p: Plan, now: nat): Result<Control> {
    if !BarrierCurrent(c, p, now) then Err(GcPlanStale)
    else if c.active.value.phase == Deleting then Ok(c)
    else if Unexpired(c.leases, now) != [] then Err(GcBarrierBusy(LatestExpiry(Unexpired(c.leases, now))))
    else Ok(c.(active := Some(c.active.value.(phase := Deleting))))
  }

  /** The check made before each deletion. */
  function ValidateFence(c: Control, p: Plan, now: nat): Result<()> {
    if !BarrierCurrent(c, p, now) || c.active.value.phase != Deleting then Err(GcPlanStale)
    else if Unexpired(c.leases, now) != [] then Err(GcBarrierBusy(LatestExpiry(Unexpired(c.leases, now))))
    else Ok(())
  }

  function ApplyRetire(c: Control, p: Plan, now: nat): Result<Control> {
    if c.active.None? || c.active.value.planHash != p.hash || c.active.value.fence != ExecutionFence(p)
       || c.active.value.phase != Deleting
    then Err(GcPlanStale)
    else match RetireAll(c.generations, p.swept, p.hash, now)
         case Err(e) => Err(e)
         case Ok(gens) => Ok(c.(generations := gens))
  }

  function ApplyClear(c: Control, p: Plan): Result<Control> {
    if c.active.None? then Ok(c)
    else if c.active.value.operation != p.operation || c.active.value.planHash != p.hash
            || c.active.value.fence != ExecutionFence(p)
    then Err(GcPlanStale)
    else Ok(c.(active := None, leases := Unexpired(c.leases, p.createdAt)))
  }

  function Apply(w: World, c: Control, op: ControlOp): Result<Control> {
    match op
    case AcquireLease(kind, id, now, duration) => ApplyAcquireLease(c, kind, id, now, duration)
    case ReleaseLease(id) => Ok(c.(leases := WithoutId(c.leases, id)))
    case RenewLease(kind, id, now, duration) => ApplyRenewLease(c, kind, id, now, duration)
    case Register(id, now) => ApplyRegister(c, id, now)
    case SetRoot(root, now) => ApplySetRoot(c, root, now)
    case Abort(operation) => ApplyAbort(c, operation)
    case AcquireBarrier(plan, now) => ApplyAcquireBarrier(w, c, plan, now)
    case EnterDelete(plan, now) => ApplyEnterDelete(c, plan, now)
    case RetirePlan(plan, now) => ApplyRetire(c, plan, now)
    case ClearBarrier(plan) => ApplyClear(c, plan)
  }

  function ReadingOf(op: ControlOp): nat {
    match op
    case AcquireLease(_, _, now, _) => now
    case RenewLease(_, _, now, _) => now
    case Register(_, now) => now
    case SetRoot(_, now) => now
    case AcquireBarrier(_, now) => now
    case EnterDelete(_, now) => now
    case RetirePlan(_, now) => now
    case _ => 0
  }

  // ---------------------------------------------------------------- what every operation keeps

  predicate IsDeleting(c: Control) {
    c.active.Some? && c.active.value.phase == Deleting
  }

  /** Lease exclusion: while the barrier is deleting, no lease is live. */
  ghost predicate LeaseExclusion(c: Control, clock: nat) {
    IsDeleting(c) ==> forall l :: l in c.leases ==> l.expires <= clock
  }

  ghost predicate UniqueIdentities(gens: seq<CatalogEntry>) {
    forall i, j :: 0 <= i < j < |gens| ==> gens[i].identity != gens[j].identity
  }

  ghost predicate RootCataloged(c: Control) {
    c.root.Some? ==> FindGeneration(c.generations, c.root.value).Some?
  }

  ghost predicate ControlInv(c: Control, clock: nat) {
    c.fence <= MAX_U64 && LeaseExclusion(c, clock) && UniqueIdentities(c.generations) && RootCataloged(c)
  }

  /** Catalog entries are never dropped, never renamed, and stay retired once retired. */
  ghost predicate CatalogGrows(a: seq<CatalogEntry>, b: seq<CatalogEntry>) {
    forall id :: FindGeneration(a, id).Some? ==>
      && FindGeneration(b, id).Some?
      && FindGeneration(b, id).value.manifestKey == FindGeneration(a, id).value.manifestKey
      && FindGeneration(b, id).value.registeredAt == FindGeneration(a, id).value.registeredAt
      && (FindGeneration(a, id).value.lifecycle.Retired? ==> FindGeneration(b, id) == FindGeneration(a, id))
  }

  lemma {:induction false} InsertSortedFinds(e: CatalogEntry, gens: seq<CatalogEntry>, id: Identity)
    requires FindGeneration(gens, e.identity).None?
    ensures FindGeneration(InsertSorted(e, gens), id)
            == if id == e.identity then Some(e) else FindGeneration(gens, id)
  {
    if gens != [] && Precedes(gens[0].identity, e.identity) {
      InsertSortedFinds(e, gens[1..], id);
    }
  }

  lemma {:induction false} InsertSortedUnique(e: CatalogEntry, gens: seq<CatalogEntry>)
    requires UniqueIdentities(gens) && FindGeneration(gens, e.identity).None?
    ensures UniqueIdentities(InsertSorted(e, gens))
  {
    if gens != [] && Precedes(gens[0].identity, e.identity) {
      InsertSortedUnique(e, gens[1..]);
      var rest := InsertSorted(e, gens[1..]);
      InsertSortedFinds(e, gens[1..], gens[0].identity);
      assert FindGeneration(rest, gens[0].identity).None?;
    }
  }

  lemma {:induction false} FindInConcat(a: seq<CatalogEntry>, b: seq<CatalogEntry>, id: Identity)
    ensures FindGeneration(a + b, id)
            == if FindGeneration(a, id).Some? then FindGeneration(a, id) else FindGeneration(b, id)
  {
    if a == [] {
      assert a + b == b;
    } else {
      assert (a + b)[1..] == a[1..] + b;
      FindInConcat(a[1..], b, id);
    }
  }

  /** Sorting a catalog without repeats neither adds, drops nor changes an entry. */
  lemma {:induction false} SortCatalogFinds(gens: seq<CatalogEntry>, id: Identity)
    requires UniqueIdentities(gens)
    ensures UniqueIdentities(SortCatalog(gens))
    ensures FindGeneration(SortCatalog(gens), id) == FindGeneration(gens, id)
  {
    if gens != [] {
      var front, last := gens[..|gens| - 1], gens[|gens| - 1];
      assert gens == front + [last];
      SortCatalogFinds(front, id);
      SortCatalogFinds(front, last.identity);
      FindInConcat(front, [last], id);
      InsertSortedFinds(last, SortCatalog(front), id);
      InsertSortedUnique(last, SortCatalog(front));
    }
  }

  lemma {:induction false} RetireOneFinds(gens: seq<CatalogEntry>, g: Identity, planHash: Hash, now: nat, id: Identity)
    requires UniqueIdentities(gens) && RetireOne(gens, g, planHash, now).Ok?
    ensures var next := RetireOne(gens, g, planHash, now).value;
            && UniqueIdentities(next)
            && (id != g ==> FindGeneration(next, id) == FindGeneration(gens, id))
            && FindGeneration(gens, g).Some? && FindGeneration(next, g).Some?
            && FindGeneration(next, g).value.lifecycle.Retired?
            && FindGeneration(next, g).value.lifecycle.planHash == planHash
            && CatalogGrows(gens, next)
  {
    if gens[0].identity != g {
      RetireOneFinds(gens[1..], g, planHash, now, id);
      var rest := RetireOne(gens[1..], g, planHash, now).value;
      forall x | x in rest ensures x.identity != gens[0].identity {
        if FindGeneration(gens[1..], gens[0].identity).None? {
          RetireOneFinds(gens[1..], g, planHash, now, gens[0].identity);
        }
      }
    }
  }

  /** Retirement is all or nothing: on success every swept generation is retired by this plan and no
      other entry has changed. */
  lemma {:induction false} RetireAllFinds(gens: seq<CatalogEntry>, swept: seq<Identity>, planHash: Hash, now: nat)
    requires UniqueIdentities(gens) && RetireAll(gens, swept, planHash, now).Ok?
    ensures var next := RetireAll(gens, swept, planHash, now).value;
            && UniqueIdentities(next)
            && CatalogGrows(gens, next)
            && (forall id :: id !in swept ==> FindGeneration(next, id) == FindGeneration(gens, id))
            && (forall id :: id in swept ==>
                  && FindGeneration(next, id).Some?
                  && FindGeneration(next, id).value.lifecycle.Retired?
                  && FindGeneration(next, id).value.lifecycle.planHash == planHash)
    decreases |swept|
  {
    if swept != [] {
      var next := RetireOne(gens, swept[0], planHash, now).value;
      RetireOneFinds(gens, swept[0], planHash, now, swept[0]);
      forall id | id != swept[0] ensures FindGeneration(next, id) == FindGeneration(gens, id) {
        RetireOneFinds(gens, swept[0], planHash, now, id);
      }
      RetireAllFinds(next, swept[1..], planHash, now);
    }
  }
}
