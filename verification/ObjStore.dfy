/**
 The object store wrapper.  `Atomic` says what create, update and delete_exact promise as single atomic
 operations.  The class performs them as the code does, with others acting in between; the state machine
 interleaves the steps of any number of calls, cancellations included, and is shown to refine the atomic
 operations.
 */
module ObjStore {
  import opened Model

  datatype Object = Object(bytes: Bytes, version: nat)

  datatype Contents = Contents(objects: map<string, Object>, next: nat)

  datatype Op =
    | Create(key: string, bytes: Bytes)
    | Update(key: string, bytes: Bytes, expected: nat)
    | DeleteExact(key: string, expected: nat)

  datatype Outcome = Wrote(version: nat) | Removed(existed: bool) | Exists | Stale

  function Put(c: Contents, key: string, bytes: Bytes): Contents {
    Contents(c.objects[key := Object(bytes, c.next)], c.next + 1)
  }

  predicate At(c: Contents, key: string, version: nat) {
    key in c.objects && c.objects[key].version == version
  }

  /** The operations as single steps. */
  function Atomic(c: Contents, op: Op): (Contents, Outcome) {
    match op
    case Create(key, bytes) =>
      if key !in c.objects then (Put(c, key, bytes), Wrote(c.next))
      else if c.objects[key].bytes == bytes then (c, Wrote(c.objects[key].version))
      else (c, Exists)
    case Update(key, bytes, expected) =>
      if At(c, key, expected) then (Put(c, key, bytes), Wrote(c.next)) else (c, Stale)
    case DeleteExact(key, expected) =>
      if key !in c.objects then (c, Removed(false))
      else if c.objects[key].version != expected then (c, Stale)
      else (c.(objects := c.objects - {key}), Removed(true))
  }

  // ---------------------------------------------------------------- one call amid others

  /** The store as one call sees it: between its steps others act, and while it holds the lock others can only
      create.  `moments` records every state. */
  class LocalStore {
    var objects: map<string, Object>
    var next: nat
    ghost var moments: seq<Contents>

    function State(): Contents
      reads this
    {
      Contents(objects, next)
    }

    ghost predicate Valid()
      reads this
    {
      moments != [] && moments[|moments| - 1] == State()
    }

    /** The operation took effect with this outcome: as the latest step, or without changing what is there. */
    ghost predicate TookEffect(op: Op, r: Outcome)
      reads this
    {
      || (|moments| >= 2 && Atomic(moments[|moments| - 2], op) == (State(), r))
      || Atomic(State(), op) == (State(), r)
    }

    constructor ()
      ensures Valid() && State() == Contents(map[], 0)
    {
      objects, next, moments := map[], 0, [Contents(map[], 0)];
    }

    /** Any number of operations of others; while the lock is held, creates only. */
    method Others(locked: bool)
      requires Valid()
      modifies this
      ensures Valid() && |moments| >= |old(moments)|
      ensures locked ==> forall k :: k in old(objects) ==> k in objects && objects[k] == old(objects)[k]
    {
      var ops: seq<Op> := *;
      for n := 0 to |ops|
        invariant Valid() && |moments| >= |old(moments)|
        invariant locked ==> forall k :: k in old(objects) ==> k in objects && objects[k] == old(objects)[k]
      {
        if ops[n].Create? || !locked {
          var (after, _) := Atomic(State(), ops[n]);
          objects, next, moments := after.objects, after.next, moments + [after];
        }
      }
    }

    /** The backend's unconditional put. */
    method Overwrite(key: string, bytes: Bytes) returns (version: nat)
      requires Valid()
      modifies this
      ensures Valid() && State() == Put(old(State()), key, bytes) && version == old(next)
      ensures moments == old(moments) + [State()]
    {
      version := next;
      objects, next := objects[key := Object(bytes, next)], next + 1;
      moments := moments + [Contents(objects, next)];
    }

    /** Put if absent, then look at what is there.  It takes effect atomically unless it is refused and finds
        the key gone. */
    method CreateObject(key: string, bytes: Bytes) returns (r: Outcome)
      requires Valid()
      modifies this
      ensures Valid() && (r.Wrote? || r.Exists?)
      ensures TookEffect(Create(key, bytes), r) <==> !(r.Exists? && key !in objects)
    {
      Others(false);
      if key !in objects {
        var version := Overwrite(key, bytes);
        return Wrote(version);
      }
      Others(false);
      if key !in objects { return Exists; }
      if objects[key].bytes == bytes { return Wrote(objects[key].version); }
      return Exists;
    }

    /** Under the lock: read the version, compare, overwrite.  It is an atomic compare-and-swap. */
    method UpdateObject(key: string, bytes: Bytes, expected: nat) returns (r: Outcome)
      requires Valid()
      modifies this
      ensures Valid() && TookEffect(Update(key, bytes, expected), r)
    {
      Others(false);
      if key !in objects { return Stale; }
      if objects[key].version != expected { return Stale; }
      Others(true);
      var version := Overwrite(key, bytes);
      return Wrote(version);
    }

    /** Under the lock: read the version, compare, delete.  It is an atomic conditional delete. */
    method DeleteExactObject(key: string, expected: nat) returns (r: Outcome)
      requires Valid()
      modifies this
      ensures Valid() && TookEffect(DeleteExact(key, expected), r)
    {
      Others(false);
      if key !in objects { return Removed(false); }
      if objects[key].version != expected { return Stale; }
      Others(true);
      objects := objects - {key};
      moments := moments + [Contents(objects, next)];
      return Removed(true);
    }
  }

  // ---------------------------------------------------------------- many callers

  datatype Phase =
    | Called                    // nothing done yet
    | Locked                    // update and delete: the lock is held
    | Matched                   // the version was read and matches; the lock is held
    | Refused                   // create: the key was there
    | Settled(outcome: Outcome) // decided; the lock is still held
    | Returned(outcome: Outcome)
    | Vanished                  // create: refused, and then the key was gone; answered Exists

  /** A call in progress; `since` is how many operations had taken effect when it began. */
  datatype Call = Call(op: Op, since: nat, phase: Phase)

  /** An operation takes effect. */
  datatype Effect = Effect(pid: nat, op: Op, outcome: Outcome)

  datatype System = System(contents: Contents, lock: Option<nat>, calls: map<nat, Call>, effects: seq<Effect>)

  datatype Step =
    | Begin(pid: nat, op: Op)
    | TryCreate(pid: nat)       // put if absent
    | GetExisting(pid: nat)     // create: read what is there
    | TakeLock(pid: nat)
    | NativeUpdate(pid: nat)    // the backend has conditional puts
    | Head(pid: nat)
    | Apply(pid: nat)           // overwrite or delete
    | Unlock(pid: nat)
    | Cancel(pid: nat)          // the call is dropped, and with it the lock

  predicate IsOver(phase: Phase) {
    phase.Returned? || phase.Vanished?
  }

  /** What the caller of a finished call is told. */
  function Told(phase: Phase): Outcome
    requires IsOver(phase)
  {
    if phase.Returned? then phase.outcome else Exists
  }

  predicate HoldsLock(phase: Phase) {
    phase.Locked? || phase.Matched? || phase.Settled?
  }

  /** The call moves on without effect. */
  function Move(s: System, pid: nat, phase: Phase): System
    requires pid in s.calls
  {
    s.(calls := s.calls[pid := s.calls[pid].(phase := phase)])
  }

  /** The call takes effect. */
  function Settle(s: System, pid: nat, contents: Contents, outcome: Outcome, phase: Phase): System
    requires pid in s.calls
  {
    Move(s, pid, phase).(contents := contents, effects := s.effects + [Effect(pid, s.calls[pid].op, outcome)])
  }

  ghost predicate Next(s: System, s': System, step: Step) {
    match step
    case Begin(pid, op) =>
      && (pid in s.calls ==> IsOver(s.calls[pid].phase))
      && s' == s.(calls := s.calls[pid := Call(op, |s.effects|, Called)])
    case TryCreate(pid) =>
      && pid in s.calls && s.calls[pid].op.Create? && s.calls[pid].phase.Called?
      && var op := s.calls[pid].op;
      s' == if op.key in s.contents.objects then Move(s, pid, Refused)
            else Settle(s, pid, Put(s.contents, op.key, op.bytes), Wrote(s.contents.next),
                        Returned(Wrote(s.contents.next)))
    case GetExisting(pid) =>
      && pid in s.calls && s.calls[pid].op.Create? && s.calls[pid].phase.Refused?
      && var op := s.calls[pid].op;
      && var objects := s.contents.objects;
      s' == if op.key !in objects then Move(s, pid, Vanished)
            else if objects[op.key].bytes == op.bytes
            then Settle(s, pid, s.contents, Wrote(objects[op.key].version), Returned(Wrote(objects[op.key].version)))
            else Settle(s, pid, s.contents, Exists, Returned(Exists))
    case TakeLock(pid) =>
      && pid in s.calls && !s.calls[pid].op.Create? && s.calls[pid].phase.Called? && s.lock.None?
      && s' == Move(s, pid, Locked).(lock := Some(pid))
    case NativeUpdate(pid) =>
      && pid in s.calls && s.calls[pid].op.Update? && s.calls[pid].phase.Locked?
      && var (after, outcome) := Atomic(s.contents, s.calls[pid].op);
      s' == Settle(s, pid, after, outcome, Settled(outcome))
    case Head(pid) =>
      && pid in s.calls && s.calls[pid].phase.Locked? && !s.calls[pid].op.Create?
      && var op := s.calls[pid].op;
      s' == if op.key !in s.contents.objects then
              var outcome := if op.Update? then Stale else Removed(false);
              Settle(s, pid, s.contents, outcome, Settled(outcome))
            else if s.contents.objects[op.key].version != op.expected then
              Settle(s, pid, s.contents, Stale, Settled(Stale))
            else Move(s, pid, Matched)
    case Apply(pid) =>
      && pid in s.calls && s.calls[pid].phase.Matched?
      && var op := s.calls[pid].op;
      && var c := s.contents;
      (match op
       case Update(key, bytes, _) => s' == Settle(s, pid, Put(c, key, bytes), Wrote(c.next), Settled(Wrote(c.next)))
       case DeleteExact(key, _) =>
         s' == if key in c.objects
               then Settle(s, pid, c.(objects := c.objects - {key}), Removed(true), Settled(Removed(true)))
               else Settle(s, pid, c, Removed(false), Settled(Removed(false)))
       case Create(_, _) => false)
    case Unlock(pid) =>
      && pid in s.calls && s.calls[pid].phase.Settled?
      && s' == Move(s, pid, Returned(s.calls[pid].phase.outcome)).(lock := None)
    case Cancel(pid) =>
      && pid in s.calls && !IsOver(s.calls[pid].phase)
      && s' == s.(calls := s.calls - {pid}, lock := if HoldsLock(s.calls[pid].phase) then None else s.lock)
  }

  ghost predicate Init(s: System) {
    && s.lock.None? && s.calls == map[] && s.effects == []
    && forall k :: k in s.contents.objects ==> s.contents.objects[k].version < s.contents.next
  }

  ghost predicate IsRun(ss: seq<System>, steps: seq<Step>) {
    && |ss| == |steps| + 1 && Init(ss[0])
    && forall i :: 0 <= i < |steps| ==> Next(ss[i], ss[i + 1], steps[i])
  }

  // ---------------------------------------------------------------- refinement

  /** Performs the operations of the effects atomically, one after the other; None if one of them has not
      the outcome on record. */
  function Replay(c: Contents, effects: seq<Effect>): Option<Contents>
    decreases |effects|
  {
    if effects == [] then Some(c)
    else
      var last := effects[|effects| - 1];
      match Replay(c, effects[..|effects| - 1])
      case None => None
      case Some(before) =>
        var (after, outcome) := Atomic(before, last.op);
        if outcome == last.outcome then Some(after) else None
  }

  lemma ReplayOneMore(c: Contents, effects: seq<Effect>, before: Contents, e: Effect)
    requires Replay(c, effects) == Some(before)
    ensures Replay(c, effects + [e])
            == if Atomic(before, e.op).1 == e.outcome then Some(Atomic(before, e.op).0) else None
  {
    assert (effects + [e])[..|effects|] == effects;
  }

  function EffectsOf(effects: seq<Effect>, pid: nat): seq<Effect> {
    if effects == [] then []
    else EffectsOf(effects[..|effects| - 1], pid)
         + (if effects[|effects| - 1].pid == pid then [effects[|effects| - 1]] else [])
  }

  lemma EffectsOfOneMore(effects: seq<Effect>, since: nat, e: Effect, pid: nat)
    requires since <= |effects|
    ensures EffectsOf((effects + [e])[since..], pid)
            == EffectsOf(effects[since..], pid) + (if e.pid == pid then [e] else [])
  {
    var all := (effects + [e])[since..];
    assert all == effects[since..] + [e] && all[..|all| - 1] == effects[since..];
  }

  /** The effects a call has had so far. */
  function Due(pid: nat, call: Call): seq<Effect> {
    match call.phase
    case Settled(outcome) => [Effect(pid, call.op, outcome)]
    case Returned(outcome) => [Effect(pid, call.op, outcome)]
    case _ => []
  }

  predicate Deletes(e: Effect, key: string) {
    e.op.DeleteExact? && e.op.key == key && e.outcome == Removed(true)
  }

  /** A delete of the key has taken effect since. */
  ghost predicate DeletedSince(effects: seq<Effect>, since: nat, key: string) {
    exists i :: since <= i < |effects| && Deletes(effects[i], key)
  }

  ghost predicate CallInv(s: System, pid: nat)
    requires pid in s.calls
  {
    var call := s.calls[pid];
    && call.since <= |s.effects|
    && (HoldsLock(call.phase) ==> s.lock == Some(pid))
    && (call.phase.Matched? ==> !call.op.Create? && At(s.contents, call.op.key, call.op.expected))
    && (call.phase.Refused? ==>
          call.op.Create? && (call.op.key in s.contents.objects || DeletedSince(s.effects, call.since, call.op.key)))
    && (call.phase.Vanished? ==> call.op.Create? && DeletedSince(s.effects, call.since, call.op.key))
    && EffectsOf(s.effects[call.since..], pid) == Due(pid, call)
  }

  ghost predicate Inv(start: Contents, s: System) {
    && (s.lock.Some? ==> s.lock.value in s.calls && HoldsLock(s.calls[s.lock.value].phase))
    && (forall k :: k in s.contents.objects ==> s.contents.objects[k].version < s.contents.next)
    && (forall pid :: pid in s.calls ==> CallInv(s, pid))
    && Replay(start, s.effects) == Some(s.contents)
  }

  /** Only an exact delete that succeeds takes a key away. */
  lemma OnlyDeleteRemoves(c: Contents, op: Op, key: string)
    requires key in c.objects && key !in Atomic(c, op).0.objects
    ensures op.DeleteExact? && op.key == key && Atomic(c, op).1 == Removed(true)
  {
  }

  lemma DeletedStill(effects: seq<Effect>, since: nat, key: string, e: Effect)
    requires DeletedSince(effects, since, key)
    ensures DeletedSince(effects + [e], since, key)
  {
    var i :| since <= i < |effects| && Deletes(effects[i], key);
    assert (effects + [e])[i] == effects[i];
  }

  lemma DeletedNow(effects: seq<Effect>, since: nat, key: string, e: Effect)
    requires since <= |effects| && Deletes(e, key)
    ensures DeletedSince(effects + [e], since, key)
  {
    assert (effects + [e])[|effects|] == e;
  }

  /** A refused create still sees the key, or it has been deleted. */
  lemma RefusedStays(s: System, e: Effect, q: nat, contents: Contents)
    requires q in s.calls && CallInv(s, q) && (s.calls[q].phase.Refused? || s.calls[q].phase.Vanished?)
    requires Atomic(s.contents, e.op) == (contents, e.outcome)
    ensures var call := s.calls[q];
            || (call.phase.Refused? && call.op.key in contents.objects)
            || DeletedSince(s.effects + [e], call.since, call.op.key)
  {
    var call := s.calls[q];
    if DeletedSince(s.effects, call.since, call.op.key) {
      DeletedStill(s.effects, call.since, call.op.key, e);
    } else if call.op.key !in contents.objects {
      OnlyDeleteRemoves(s.contents, e.op, call.op.key);
      DeletedNow(s.effects, call.since, call.op.key, e);
    }
  }

  /** A call that stands by while another takes effect keeps its invariant. */
  lemma OtherCall(s: System, s': System, pid: nat, contents: Contents, outcome: Outcome, phase: Phase, q: nat)
    requires pid in s.calls && q in s.calls && q != pid && CallInv(s, q)
    requires s' == Settle(s, pid, contents, outcome, phase)
    requires Atomic(s.contents, s.calls[pid].op) == (contents, outcome)
    requires s.calls[q].phase.Matched? ==> At(contents, s.calls[q].op.key, s.calls[q].op.expected)
    ensures CallInv(s', q)
  {
    var e := Effect(pid, s.calls[pid].op, outcome);
    EffectsOfOneMore(s.effects, s.calls[q].since, e, q);
    if s.calls[q].phase.Refused? || s.calls[q].phase.Vanished? { RefusedStays(s, e, q, contents); }
  }

  /** The call that takes effect. */
  lemma OwnCall(s: System, s': System, pid: nat, contents: Contents, outcome: Outcome, phase: Phase)
    requires pid in s.calls && CallInv(s, pid) && Due(pid, s.calls[pid]) == []
    requires s' == Settle(s, pid, contents, outcome, phase)
    requires phase == Settled(outcome) || phase == Returned(outcome)
    requires phase.Settled? ==> s.lock == Some(pid)
    ensures CallInv(s', pid)
  {
    EffectsOfOneMore(s.effects, s.calls[pid].since, Effect(pid, s.calls[pid].op, outcome), pid);
  }

  /** A step that takes effect does atomically what its operation promises. */
  lemma SettleKeepsInv(start: Contents, s: System, s': System, pid: nat, contents: Contents, outcome: Outcome,
                       phase: Phase)
    requires Inv(start, s) && pid in s.calls && Due(pid, s.calls[pid]) == []
    requires s' == Settle(s, pid, contents, outcome, phase)
    requires phase == Settled(outcome) || phase == Returned(outcome)
    requires phase.Settled? ==> s.lock == Some(pid)
    requires phase.Returned? ==> !HoldsLock(s.calls[pid].phase)
    requires Atomic(s.contents, s.calls[pid].op) == (contents, outcome)
    requires forall q :: q in s.calls && q != pid && s.calls[q].phase.Matched? ==>
               At(contents, s.calls[q].op.key, s.calls[q].op.expected)
    ensures Inv(start, s')
  {
    ReplayOneMore(start, s.effects, s.contents, Effect(pid, s.calls[pid].op, outcome));
    assert CallInv(s, pid);
    OwnCall(s, s', pid, contents, outcome, phase);
    forall q | q in s'.calls && q != pid ensures CallInv(s', q) {
      assert CallInv(s, q);
      OtherCall(s, s', pid, contents, outcome, phase, q);
    }
  }

  /** Only the holder of the lock can have matched a version. */
  lemma OneMatched(start: Contents, s: System, pid: nat, q: nat)
    requires Inv(start, s) && s.lock == Some(pid) && q in s.calls && s.calls[q].phase.Matched?
    ensures q == pid
  {
    assert CallInv(s, q);
  }

  lemma MoveKeepsInv(start: Contents, s: System, s': System)
    requires Inv(start, s) && s'.effects == s.effects && s'.contents == s.contents
    requires s'.lock.Some? ==> s'.lock.value in s'.calls && HoldsLock(s'.calls[s'.lock.value].phase)
    requires forall q :: q in s'.calls ==> CallInv(s', q)
    ensures Inv(start, s')
  {
  }

  lemma LockedStepKeepsInv(start: Contents, s: System, s': System, step: Step)
    requires Inv(start, s) && Next(s, s', step) && (step.NativeUpdate? || step.Head? || step.Apply?)
    ensures Inv(start, s')
  {
    var pid := step.pid;
    assert CallInv(s, pid);
    forall q | q in s.calls && s.calls[q].phase.Matched? ensures q == pid { OneMatched(start, s, pid, q); }
    if s'.effects == s.effects {
      forall q | q in s'.calls ensures CallInv(s', q) { assert CallInv(s, q); }
      MoveKeepsInv(start, s, s');
    } else {
      SettleKeepsInv(start, s, s', pid, s'.contents, s'.calls[pid].phase.outcome, s'.calls[pid].phase);
    }
  }

  lemma MatchedOnesStay(start: Contents, s: System, key: string, bytes: Bytes)
    requires Inv(start, s) && key !in s.contents.objects
    ensures forall q :: q in s.calls && s.calls[q].phase.Matched? ==>
              At(Put(s.contents, key, bytes), s.calls[q].op.key, s.calls[q].op.expected)
  {
    forall q | q in s.calls && s.calls[q].phase.Matched?
      ensures At(Put(s.contents, key, bytes), s.calls[q].op.key, s.calls[q].op.expected)
    {
      assert CallInv(s, q);
    }
  }

  lemma RefusedKeepsInv(start: Contents, s: System, s': System, step: Step)
    requires Inv(start, s) && Next(s, s', step) && step.TryCreate?
    requires s.calls[step.pid].op.key in s.contents.objects
    ensures Inv(start, s')
  {
    assert CallInv(s, step.pid);
    forall q | q in s'.calls ensures CallInv(s', q) { assert CallInv(s, q); }
    MoveKeepsInv(start, s, s');
  }

  lemma TryCreateKeepsInv(start: Contents, s: System, s': System, step: Step)
    requires Inv(start, s) && Next(s, s', step) && step.TryCreate?
    ensures Inv(start, s')
  {
    var pid := step.pid;
    var op := s.calls[pid].op;
    assert CallInv(s, pid);
    if op.key in s.contents.objects {
      RefusedKeepsInv(start, s, s', step);
    } else {
      var outcome := Wrote(s.contents.next);
      MatchedOnesStay(start, s, op.key, op.bytes);
      SettleKeepsInv(start, s, s', pid, Put(s.contents, op.key, op.bytes), outcome, Returned(outcome));
    }
  }

  lemma GetExistingKeepsInv(start: Contents, s: System, s': System, step: Step)
    requires Inv(start, s) && Next(s, s', step) && step.GetExisting?
    ensures Inv(start, s')
  {
    var pid := step.pid;
    var op := s.calls[pid].op;
    assert CallInv(s, pid);
    if op.key !in s.contents.objects {
      forall q | q in s'.calls ensures CallInv(s', q) { assert CallInv(s, q); }
      MoveKeepsInv(start, s, s');
    } else {
      var o := s.contents.objects[op.key];
      var outcome := if o.bytes == op.bytes then Wrote(o.version) else Exists;
      forall q | q in s.calls && s.calls[q].phase.Matched?
        ensures At(s.contents, s.calls[q].op.key, s.calls[q].op.expected) { assert CallInv(s, q); }
      SettleKeepsInv(start, s, s', pid, s.contents, outcome, Returned(outcome));
    }
  }

  lemma BeginKeepsInv(start: Contents, s: System, s': System, step: Step)
    requires Inv(start, s) && Next(s, s', step) && step.Begin?
    ensures Inv(start, s')
  {
    if step.pid in s.calls { assert CallInv(s, step.pid); }
    forall q | q in s'.calls ensures CallInv(s', q) {
      if q == step.pid { assert s'.effects[|s'.effects|..] == []; } else { assert CallInv(s, q); }
    }
    MoveKeepsInv(start, s, s');
  }

  lemma LockingKeepsInv(start: Contents, s: System, s': System, step: Step)
    requires Inv(start, s) && Next(s, s', step) && (step.TakeLock? || step.Unlock? || step.Cancel?)
    ensures Inv(start, s')
  {
    assert CallInv(s, step.pid);
    forall q | q in s'.calls ensures CallInv(s', q) { assert CallInv(s, q); }
    MoveKeepsInv(start, s, s');
  }

  lemma NextKeepsInv(start: Contents, s: System, s': System, step: Step)
    requires Inv(start, s) && Next(s, s', step)
    ensures Inv(start, s')
  {
    match step
    case Begin(_, _) => BeginKeepsInv(start, s, s', step);
    case TryCreate(_) => TryCreateKeepsInv(start, s, s', step);
    case GetExisting(_) => GetExistingKeepsInv(start, s, s', step);
    case NativeUpdate(_) => LockedStepKeepsInv(start, s, s', step);
    case Head(_) => LockedStepKeepsInv(start, s, s', step);
    case Apply(_) => LockedStepKeepsInv(start, s, s', step);
    case _ => LockingKeepsInv(start, s, s', step);
  }

  lemma {:induction false} RunKeepsInv(ss: seq<System>, steps: seq<Step>, i: nat)
    requires IsRun(ss, steps) && i < |ss|
    ensures Inv(ss[0].contents, ss[i])
  {
    if i > 0 {
      RunKeepsInv(ss, steps, i - 1);
      NextKeepsInv(ss[0].contents, ss[i - 1], ss[i], steps[i - 1]);
    }
  }

  /** Every run refines the atomic operations: its contents are what the effects so far give when performed
      one at a time, and a call that is over took effect exactly once since it began, with the outcome its
      caller was told; except a create that was refused and then found the key gone, which took no effect, and
      that happens only if an exact delete of the key took effect since the call began. */
  lemma RefinesAtomic(ss: seq<System>, steps: seq<Step>, i: nat, pid: nat)
    requires IsRun(ss, steps) && i < |ss| && pid in ss[i].calls && IsOver(ss[i].calls[pid].phase)
    ensures Replay(ss[0].contents, ss[i].effects) == Some(ss[i].contents)
    ensures var call := ss[i].calls[pid];
            && call.since <= |ss[i].effects|
            && (call.phase.Returned? ==>
                  EffectsOf(ss[i].effects[call.since..], pid) == [Effect(pid, call.op, Told(call.phase))])
            && (call.phase.Vanished? ==>
                  && EffectsOf(ss[i].effects[call.since..], pid) == []
                  && call.op.Create? && DeletedSince(ss[i].effects, call.since, call.op.key))
  {
    RunKeepsInv(ss, steps, i);
    assert CallInv(ss[i], pid);
  }

  /** When a refusal is atomic, exactly: at the moment a refused create reads the key again and answers Exists,
      that is what the atomic create would answer if and only if the key is still there; and if no exact delete
      of the key took effect since the call began, it is. */
  lemma RefusalIsAtomicExactly(ss: seq<System>, steps: seq<Step>, i: nat)
    requires IsRun(ss, steps) && i < |steps| && steps[i].GetExisting?
    requires steps[i].pid in ss[i + 1].calls && IsOver(ss[i + 1].calls[steps[i].pid].phase)
    requires Told(ss[i + 1].calls[steps[i].pid].phase).Exists?
    ensures steps[i].pid in ss[i].calls && ss[i].calls[steps[i].pid].op.Create?
    ensures var call := ss[i].calls[steps[i].pid];
            && (Atomic(ss[i].contents, call.op) == (ss[i].contents, Exists) <==> call.op.key in ss[i].contents.objects)
            && (!DeletedSince(ss[i].effects, call.since, call.op.key) ==>
                  Atomic(ss[i].contents, call.op) == (ss[i].contents, Exists))
  {
    RunKeepsInv(ss, steps, i);
    assert Next(ss[i], ss[i + 1], steps[i]);
    assert CallInv(ss[i], steps[i].pid);
  }

  /** What a successful create means: at some moment of the call the key held exactly these bytes at the
      returned version. */
  lemma CreatedMeansHeld(ss: seq<System>, steps: seq<Step>, i: nat)
    requires IsRun(ss, steps) && i < |steps| && (steps[i].TryCreate? || steps[i].GetExisting?)
    requires ss[i + 1].calls[steps[i].pid].phase.Returned?
    requires ss[i + 1].calls[steps[i].pid].phase.outcome.Wrote?
    ensures var call := ss[i + 1].calls[steps[i].pid];
            && call.op.key in ss[i + 1].contents.objects
            && ss[i + 1].contents.objects[call.op.key] == Object(call.op.bytes, call.phase.outcome.version)
  {
    assert Next(ss[i], ss[i + 1], steps[i]);
  }

  // ---------------------------------------------------------------- where the promise ends

  /** A create that has seen the key, and a delete of the key at work. */
  function Racing(key: string, bytes: Bytes, lock: Option<nat>, phase: Phase): System {
    System(Contents(map[key := Object(bytes, 0)], 1), lock,
           map[0 := Call(Create(key, bytes), 0, Refused), 1 := Call(DeleteExact(key, 0), 0, phase)], [])
  }

  function Refusing(key: string, bytes: Bytes, phase: Phase): System {
    System(Contents(map[key := Object(bytes, 0)], 1), None, map[0 := Call(Create(key, bytes), 0, phase)], [])
  }

  /** The key is gone. */
  function Gone(key: string, bytes: Bytes, phase: Phase): System {
    System(Contents(map[], 1), Some(1),
           map[0 := Call(Create(key, bytes), 0, phase), 1 := Call(DeleteExact(key, 0), 0, Settled(Removed(true)))],
           [Effect(1, DeleteExact(key, 0), Removed(true))])
  }

  lemma RefusalBegins(key: string, bytes: Bytes)
    ensures var s0 := System(Contents(map[key := Object(bytes, 0)], 1), None, map[], []);
            && Init(s0)
            && Next(s0, Refusing(key, bytes, Called), Begin(0, Create(key, bytes)))
            && Next(Refusing(key, bytes, Called), Refusing(key, bytes, Refused), TryCreate(0))
            && Next(Refusing(key, bytes, Refused), Racing(key, bytes, None, Called), Begin(1, DeleteExact(key, 0)))
  {
  }

  lemma RefusalEnds(key: string, bytes: Bytes)
    ensures Next(Racing(key, bytes, None, Called), Racing(key, bytes, Some(1), Locked), TakeLock(1))
    ensures Next(Racing(key, bytes, Some(1), Locked), Racing(key, bytes, Some(1), Matched), Head(1))
    ensures Next(Racing(key, bytes, Some(1), Matched), Gone(key, bytes, Refused), Apply(1))
    ensures Next(Gone(key, bytes, Refused), Gone(key, bytes, Vanished), GetExisting(0))
  {
    assert map[key := Object(bytes, 0)] - {key} == map[];
  }

  /** A create may be refused although the key held these very bytes, or nothing, throughout the call: the
      object is seen by the put and deleted before it is read. */
  lemma CreateMayRefuseItsOwnBytes(key: string, bytes: Bytes) returns (ss: seq<System>, steps: seq<Step>)
    ensures IsRun(ss, steps) && |ss| > 0
    ensures var last := ss[|ss| - 1]; 0 in last.calls && last.calls[0] == Call(Create(key, bytes), 0, Vanished)
    ensures forall i :: 0 <= i < |ss| ==>
              (key in ss[i].contents.objects ==> ss[i].contents.objects[key].bytes == bytes)
  {
    RefusalBegins(key, bytes);
    RefusalEnds(key, bytes);
    var s0 := System(Contents(map[key := Object(bytes, 0)], 1), None, map[], []);
    ss := [s0, Refusing(key, bytes, Called), Refusing(key, bytes, Refused), Racing(key, bytes, None, Called),
           Racing(key, bytes, Some(1), Locked), Racing(key, bytes, Some(1), Matched),
           Gone(key, bytes, Refused), Gone(key, bytes, Vanished)];
    steps := [Begin(0, Create(key, bytes)), TryCreate(0), Begin(1, DeleteExact(key, 0)),
              TakeLock(1), Head(1), Apply(1), GetExisting(0)];
  }

  /** The unconditional put, which takes no lock. */
  function PlainPut(s: System, key: string, bytes: Bytes): System {
    s.(contents := Put(s.contents, key, bytes))
  }

  /** An unconditional put between another call's version check and its overwrite leaves the emulated update
      an atomic compare-and-swap exactly when it goes to another key. */
  lemma PlainPutBreaksUpdate(start: Contents, s: System, pid: nat, key: string, bytes: Bytes, s': System)
    requires Inv(start, s) && pid in s.calls && s.calls[pid].op.Update? && s.calls[pid].phase.Matched?
    requires Next(PlainPut(s, key, bytes), s', Apply(pid))
    ensures s'.calls[pid].phase == Settled(Wrote(s.contents.next + 1))
    ensures (s'.contents, s'.calls[pid].phase.outcome) == Atomic(PlainPut(s, key, bytes).contents, s.calls[pid].op)
            <==> key != s.calls[pid].op.key
  {
    assert CallInv(s, pid);
    assert At(s.contents, s.calls[pid].op.key, s.calls[pid].op.expected);
  }
}
