/**
 The control object as it is updated: load a copy, change the copy in place, swap it in if nobody has
 written since, and otherwise start over, a bounded number of times.  Other callers may write anything
 between the load and the swap.  A call that returns Ok has applied its operation, as GcControl defines it,
 in one atomic step to the control in force at that moment.
 */
module GcControlObject {
  import opened Model
  import opened GcControl
  import opened GcHistory

  const MAX_ATTEMPTS: nat := 128

  lemma UnexpiredConcat(a: seq<Lease>, b: seq<Lease>, now: nat)
    ensures Unexpired(a + b, now) == Unexpired(a, now) + Unexpired(b, now)
  {
    if a == [] {
      assert a + b == b;
    } else {
      assert (a + b)[1..] == a[1..] + b;
      UnexpiredConcat(a[1..], b, now);
    }
  }

  lemma UnexpiredMore(leases: seq<Lease>, n: nat, now: nat)
    requires n < |leases|
    ensures Unexpired(leases[..n + 1], now)
            == Unexpired(leases[..n], now) + (if leases[n].expires > now then [leases[n]] else [])
  {
    assert leases[..n + 1] == leases[..n] + [leases[n]];
    UnexpiredConcat(leases[..n], [leases[n]], now);
  }

  method RetainUnexpired(leases: seq<Lease>, now: nat) returns (kept: seq<Lease>)
    ensures kept == Unexpired(leases, now)
  {
    kept := [];
    for n := 0 to |leases|
      invariant kept == Unexpired(leases[..n], now)
    {
      UnexpiredMore(leases, n, now);
      if leases[n].expires > now { kept := kept + [leases[n]]; }
    }
    assert leases[..|leases|] == leases;
  }

  lemma WithoutIdConcat(a: seq<Lease>, b: seq<Lease>, id: nat)
    ensures WithoutId(a + b, id) == WithoutId(a, id) + WithoutId(b, id)
  {
    if a == [] {
      assert a + b == b;
    } else {
      assert (a + b)[1..] == a[1..] + b;
      WithoutIdConcat(a[1..], b, id);
    }
  }

  lemma WithoutIdMore(leases: seq<Lease>, n: nat, id: nat)
    requires n < |leases|
    ensures WithoutId(leases[..n + 1], id)
            == WithoutId(leases[..n], id) + (if leases[n].id != id then [leases[n]] else [])
  {
    assert leases[..n + 1] == leases[..n] + [leases[n]];
    WithoutIdConcat(leases[..n], [leases[n]], id);
  }

  method RetainOthers(leases: seq<Lease>, id: nat) returns (kept: seq<Lease>)
    ensures kept == WithoutId(leases, id)
  {
    kept := [];
    for n := 0 to |leases|
      invariant kept == WithoutId(leases[..n], id)
    {
      WithoutIdMore(leases, n, id);
      if leases[n].id != id { kept := kept + [leases[n]]; }
    }
    assert leases[..|leases|] == leases;
  }

  lemma {:induction false} LeaseAt(leases: seq<Lease>, id: nat, k: nat, fence: nat, expires: nat)
    requires k < |leases| && leases[k].id == id && forall i :: 0 <= i < k ==> leases[i].id != id
    ensures FindLease(leases, id) == Some(leases[k])
    ensures SetLease(leases, id, fence, expires) == leases[k := leases[k].(fence := fence, expires := expires)]
  {
    if k > 0 {
      LeaseAt(leases[1..], id, k - 1, fence, expires);
      assert leases[k := leases[k].(fence := fence, expires := expires)]
             == [leases[0]] + leases[1..][k - 1 := leases[k].(fence := fence, expires := expires)];
    } else {
      assert leases[0 := leases[0].(fence := fence, expires := expires)]
             == [leases[0].(fence := fence, expires := expires)] + leases[1..];
    }
  }

  lemma {:induction false} NoLease(leases: seq<Lease>, id: nat)
    requires forall i :: 0 <= i < |leases| ==> leases[i].id != id
    ensures FindLease(leases, id).None?
  {
    if leases != [] { NoLease(leases[1..], id); }
  }

  /** The lease with this id is refreshed where it stands, or added. */
  method RefreshLease(leases: seq<Lease>, kind: LeaseKind, id: nat, fence: nat, expires: nat)
    returns (r: Result<seq<Lease>>)
    ensures r == var held := FindLease(leases, id);
                 if held.None? then Ok(leases + [Lease(id, kind, fence, expires)])
                 else if held.value.kind != kind then Err(InvalidGc)
                 else Ok(SetLease(leases, id, fence, expires))
  {
    var k := 0;
    while k < |leases| && leases[k].id != id
      invariant k <= |leases| && forall i :: 0 <= i < k ==> leases[i].id != id
    {
      k := k + 1;
    }
    if k == |leases| {
      NoLease(leases, id);
      return Ok(leases + [Lease(id, kind, fence, expires)]);
    }
    LeaseAt(leases, id, k, fence, expires);
    if leases[k].kind != kind { return Err(InvalidGc); }
    return Ok(leases[k := leases[k].(fence := fence, expires := expires)]);
  }

  lemma {:induction false} RetireOneAt(gens: seq<CatalogEntry>, id: Identity, planHash: Hash, now: nat, k: nat)
    requires k <= |gens| && forall i :: 0 <= i < k ==> gens[i].identity != id
    requires k < |gens| ==> gens[k].identity == id
    ensures RetireOne(gens, id, planHash, now) ==
            if k == |gens| then Err(GcPlanStale)
            else if gens[k].lifecycle.Active? then Ok(gens[k := gens[k].(lifecycle := Retired(planHash, now))])
            else if gens[k].lifecycle.planHash == planHash then Ok(gens)
            else Err(GcPlanStale)
  {
    if k > 0 {
      RetireOneAt(gens[1..], id, planHash, now, k - 1);
      assert gens == [gens[0]] + gens[1..];
      if k < |gens| {
        assert gens[k := gens[k].(lifecycle := Retired(planHash, now))]
               == [gens[0]] + gens[1..][k - 1 := gens[k].(lifecycle := Retired(planHash, now))];
      }
    } else if gens != [] {
      assert gens[0 := gens[0].(lifecycle := Retired(planHash, now))]
             == [gens[0].(lifecycle := Retired(planHash, now))] + gens[1..];
    }
  }

  method RetireGeneration(gens: seq<CatalogEntry>, id: Identity, planHash: Hash, now: nat)
    returns (r: Result<seq<CatalogEntry>>)
    ensures r == RetireOne(gens, id, planHash, now)
  {
    var k := 0;
    while k < |gens| && gens[k].identity != id
      invariant k <= |gens| && forall i :: 0 <= i < k ==> gens[i].identity != id
    {
      k := k + 1;
    }
    RetireOneAt(gens, id, planHash, now, k);
    if k == |gens| { return Err(GcPlanStale); }
    match gens[k].lifecycle
    case Active => return Ok(gens[k := gens[k].(lifecycle := Retired(planHash, now))]);
    case Retired(retiring, _) => if retiring == planHash { return Ok(gens); } else { return Err(GcPlanStale); }
  }

  /** Marks the swept generations one after the other in the copy; the first that is gone, or was retired by
      another plan, spoils the whole. */
  method RetireGenerations(gens: seq<CatalogEntry>, swept: seq<Identity>, planHash: Hash, now: nat)
    returns (r: Result<seq<CatalogEntry>>)
    ensures r == RetireAll(gens, swept, planHash, now)
  {
    var current := gens;
    for n := 0 to |swept|
      invariant RetireAll(gens, swept, planHash, now) == RetireAll(current, swept[n..], planHash, now)
    {
      var one := RetireGeneration(current, swept[n], planHash, now);
      assert swept[n..][0] == swept[n] && swept[n..][1..] == swept[n + 1..];
      if one.Err? { return Err(one.error); }
      current := one.value;
    }
    return Ok(current);
  }

  /** One attempt: the loaded copy is changed as the operation says, or refused. */
  method Revise(w: World, loaded: Control, op: ControlOp) returns (r: Result<Control>)
    ensures r == Apply(w, loaded, op)
  {
    var control := loaded;
    match op
    case AcquireLease(kind, id, now, duration) =>
      control := ExpireState(control, now);
      if control.active.Some? { return Err(GcBarrierActive); }
      var others := RetainOthers(control.leases, id);
      return Ok(control.(leases := others + [Lease(id, kind, control.fence, SatAdd(now, duration))]));
    case ReleaseLease(id) =>
      var others := RetainOthers(control.leases, id);
      return Ok(control.(leases := others));
    case RenewLease(kind, id, now, duration) =>
      control := ExpireState(control, now);
      if control.active.Some? && control.active.value.phase == Deleting { return Err(GcBarrierActive); }
      var expires := SatAdd(now, duration);
      var leases := RefreshLease(control.leases, kind, id, control.fence, expires);
      if leases.Err? { return Err(leases.error); }
      control := control.(leases := leases.value);
      if control.active.Some? {
        var active := control.active.value;
        control := control.(active := Some(active.(expires := Max(active.expires, SatAdd(expires, DEFAULT_LEASE_MS)))));
      }
      return Ok(control);
    case EnterDelete(plan, now) =>
      if !BarrierCurrent(control, plan, now) { return Err(GcPlanStale); }
      if control.active.value.phase == Deleting { return Ok(control); }
      var live := RetainUnexpired(control.leases, now);
      if live != [] { return Err(GcBarrierBusy(LatestExpiry(live))); }
      return Ok(control.(active := Some(control.active.value.(phase := Deleting))));
    case RetirePlan(plan, now) =>
      if control.active.None? || control.active.value.planHash != plan.hash
         || control.active.value.fence != ExecutionFence(plan) || control.active.value.phase != Deleting {
        return Err(GcPlanStale);
      }
      var gens := RetireGenerations(control.generations, plan.swept, plan.hash, now);
      if gens.Err? { return Err(gens.error); }
      return Ok(control.(generations := gens.value));
    case ClearBarrier(plan) =>
      if control.active.None? { return Ok(control); }
      if control.active.value.operation != plan.operation || control.active.value.planHash != plan.hash
         || control.active.value.fence != ExecutionFence(plan) {
        return Err(GcPlanStale);
      }
      var kept := RetainUnexpired(control.leases, plan.createdAt);
      return Ok(control.(active := None, leases := kept));
    case Register(id, now) =>
      if FindGeneration(control.generations, id).Some? { return Ok(control); }
      var entry := CatalogEntry(id, ManifestKey(id), now, Active);
      control := control.(generations := SortCatalog(control.generations + [entry]));
      if control.root.None? { control := control.(root := Some(id)); }
      return Ok(control);
    case SetRoot(root, now) =>
      control := ExpireState(control, now);
      if control.active.Some? { return Err(GcBarrierActive); }
      if FindGeneration(control.generations, root).None? { return Err(InvalidGc); }
      return Ok(control.(root := Some(root)));
    case Abort(operation) =>
      if control.active.None? { return Ok(control); }
      if control.active.value.operation != operation { return Err(GcBarrierActive); }
      return Ok(control.(active := None));
    case AcquireBarrier(plan, now) =>
      control := ExpireState(control, now);
      if control.active.Some? {
        if HoldsBarrier(control, plan) { return Ok(loaded); }
        return Err(GcBarrierActive);
      }
      var isFresh, isResumed := FreshPlan(w, control, plan), ResumedPlan(control, plan);
      if control.root != Some(plan.root) || (!isFresh && !isResumed) { return Err(GcPlanStale); }
      control := control.(fence := ExecutionFence(plan));
      var expires := SatAdd(now, DEFAULT_LEASE_MS);
      return Ok(control.(active := Some(Barrier(plan.operation, plan.hash, control.fence, plan.root, expires,
                                                Draining))));
  }

  /** Operations that leave an unchanged control object unwritten. */
  predicate SkipsUnchanged(op: ControlOp) {
    !op.AcquireLease? && !op.RenewLease? && !op.SetRoot?
  }

  method ExpireState(loaded: Control, now: nat) returns (control: Control)
    ensures control == Expire(loaded, now)
  {
    var kept := RetainUnexpired(loaded.leases, now);
    control := loaded.(leases := kept);
    if control.active.Some? && control.active.value.expires <= now { control := control.(active := None); }
  }

  /** A write of the control object, by the caller under study or by another. */
  datatype Written = Written(control: Control, own: bool)

  /** The stored control object, shared by all callers.  `history` holds every write, oldest first. */
  class ControlObject {
    var control: Control
    var version: nat
    ghost var history: seq<Written>

    ghost predicate Valid()
      reads this
    {
      history != [] && history[|history| - 1].control == control && version == |history|
    }

    constructor ()
      ensures Valid() && control == EMPTY_CONTROL && history == [Written(EMPTY_CONTROL, false)]
    {
      control, version, history := EMPTY_CONTROL, 1, [Written(EMPTY_CONTROL, false)];
    }

    /** Whatever other callers write meanwhile; each write gives a fresh version. */
    method Others()
      requires Valid()
      modifies this
      ensures Valid() && old(history) <= history
      ensures forall i :: |old(history)| <= i < |history| ==> !history[i].own
    {
      var writes: nat :| writes >= 0;
      for n := 0 to writes
        invariant Valid() && old(history) <= history
        invariant forall i :: |old(history)| <= i < |history| ==> !history[i].own
      {
        var next: Control := *;
        control, version, history := next, version + 1, history + [Written(next, false)];
      }
    }

    /** A put conditional on the version. */
    method Swap(next: Control, expected: nat) returns (ok: bool)
      requires Valid()
      modifies this
      ensures Valid()
      ensures ok <==> old(version) == expected
      ensures history == if ok then old(history) + [Written(next, true)] else old(history)
      ensures control == if ok then next else old(control)
    {
      ok := version == expected;
      if ok { control, version, history := next, version + 1, history + [Written(next, true)]; }
    }

    /** This caller has written nothing since the history was `before`. */
    ghost predicate Silent(before: seq<Written>)
      reads this
    {
      before <= history && forall i :: |before| <= i < |history| ==> !history[i].own
    }

    /** This caller's one write since then is the latest, and applied the operation to the control written
        just before it, which was therefore in force at that moment. */
    ghost predicate AppliedOnce(w: World, before: seq<Written>, op: ControlOp)
      reads this
    {
      && before <= history && |before| < |history|
      && (forall i :: |before| <= i < |history| - 1 ==> !history[i].own)
      && history[|history| - 1] == Written(control, true)
      && |history| >= 2 && Apply(w, history[|history| - 2].control, op) == Ok(control)
    }

    /** The retry loop.  When it succeeds, either this call has written exactly once, applying the operation in
        one step to the control in force at that moment, or the operation leaves the control in force as it
        is and nothing was written.  When the operation is refused, the control in force refuses it; in every
        failing case this call has written nothing; and it gives up only when others have written in every
        attempt. */
    method Perform(w: World, op: ControlOp) returns (r: Result<()>, ghost exhausted: bool)
      requires Valid()
      modifies this
      ensures Valid()
      ensures r.Ok? ==>
                || AppliedOnce(w, old(history), op)
                || (Silent(old(history)) && Apply(w, control, op) == Ok(control))
      ensures r.Err? ==> Silent(old(history))
      ensures r.Err? && !exhausted ==> Apply(w, control, op) == Err(r.error)
      ensures exhausted ==> r == Err(Precondition) && |history| >= |old(history)| + MAX_ATTEMPTS
    {
      exhausted := false;
      for attempt := 0 to MAX_ATTEMPTS
        invariant Valid() && Silent(old(history)) && !exhausted && |history| >= |old(history)| + attempt
      {
        ghost var before := history;
        var tried := Attempt(w, op);
        forall i | |old(history)| <= i < |before| ensures !history[i].own { assert history[i] == before[i]; }
        assert AppliedOnce(w, before, op) ==> AppliedOnce(w, old(history), op);
        assert Silent(before) ==> Silent(old(history));
        if tried.Some? { return tried.value, false; }
      }
      return Err(Precondition), true;
    }

    /** One attempt; nothing if others wrote between its load and its swap. */
    method Attempt(w: World, op: ControlOp) returns (r: Option<Result<()>>)
      requires Valid()
      modifies this
      ensures Valid() && old(history) <= history
      ensures r.None? ==> Silent(old(history)) && |history| > |old(history)|
      ensures r.Some? && r.value.Ok? ==>
                || AppliedOnce(w, old(history), op)
                || (Silent(old(history)) && Apply(w, control, op) == Ok(control))
      ensures r.Some? && r.value.Err? ==> Silent(old(history)) && Apply(w, control, op) == Err(r.value.error)
    {
      Others();
      var loaded, at := control, version;
      var revised := Revise(w, loaded, op);
      if revised.Err? { return Some(Err(revised.error)); }
      if revised.value == loaded && SkipsUnchanged(op) { return Some(Ok(())); }
      var swapped := SwapAmidOthers(revised.value, at);
      return if swapped then Some(Ok(())) else None;
    }

    /** The swap of a control revised from the one in force at the beginning. */
    method SwapAmidOthers(next: Control, at: nat) returns (ok: bool)
      requires Valid() && at == version
      modifies this
      ensures Valid()
      ensures ok ==> history == old(history) + [Written(next, true)] && control == next
      ensures !ok ==> Silent(old(history)) && |history| > |old(history)|
    {
      Others();
      ok := Swap(next, at);
    }
  }
}
