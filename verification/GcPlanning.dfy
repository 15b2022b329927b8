/**
 Planning a collection: which generations to retire and which object versions to delete.  The inputs
 are what the planner read, at whatever moments it read them: the control object, the root manifest,
 and one listing per generation.
 */
module GcPlanning {
  import opened Model
  import opened GcControl
  import opened GcHistory
  import opened GcLaws

  datatype Meta = Meta(key: Key, version: nat, modified: nat)

  datatype Policy = Policy(operation: nat, root: Identity, retain: nat, graceMs: nat, minAgeMs: nat)

  /** The deletable layouts: segments and snapshots, never a manifest (see module Keys). */
  predicate IsKnownObject(id: Identity, key: Key) {
    key.id == id && (key.SegmentKey? || key.SnapshotKey?)
  }

  predicate References(m: Manifest, key: Key) {
    || (m.base.Snapshot? && m.base.snapshot.key == key)
    || exists i :: 0 <= i < |m.segments| && m.segments[i].key == key
  }

  function Age(now: nat, meta: Meta): nat {
    if now >= meta.modified then now - meta.modified else 0
  }

  function CandidateOf(id: Identity, meta: Meta): Candidate {
    Candidate(id, meta.key, meta.version, meta.modified)
  }

  function ActiveOnly(gens: seq<CatalogEntry>): (r: seq<CatalogEntry>)
    ensures forall e :: e in r <==> e in gens && e.lifecycle.Active?
  {
    if gens == [] then []
    else (if gens[0].lifecycle.Active? then [gens[0]] else []) + ActiveOnly(gens[1..])
  }

  ghost predicate NewestFirst(gens: seq<CatalogEntry>) {
    forall i, j :: 0 <= i < j < |gens| ==> gens[i].identity.generation >= gens[j].identity.generation
  }

  function InsertNewest(e: CatalogEntry, gens: seq<CatalogEntry>): (r: seq<CatalogEntry>)
    ensures forall x :: x in r <==> x == e || x in gens
    ensures NewestFirst(gens) ==> NewestFirst(r)
  {
    if gens == [] then [e]
    else if gens[0].identity.generation >= e.identity.generation then
      var rest := InsertNewest(e, gens[1..]);
      assert forall j :: 0 <= j < |rest| ==> rest[j] in rest && (rest[j] == e || rest[j] in gens[1..]);
      [gens[0]] + rest
    else [e] + gens
  }

  /** A stable sort, newest recovery generation first. */
  function SortNewest(gens: seq<CatalogEntry>): (r: seq<CatalogEntry>)
    ensures forall e :: e in r <==> e in gens
    ensures NewestFirst(r)
  {
    if gens == [] then []
    else
      assert gens == gens[..|gens| - 1] + [gens[|gens| - 1]];
      InsertNewest(gens[|gens| - 1], SortNewest(gens[..|gens| - 1]))
  }

  /** The identities kept besides the root: the first `n` others in the given order. */
  function Retained(gens: seq<CatalogEntry>, root: Identity, n: nat): (r: seq<Identity>)
    ensures |r| <= n
    ensures root !in r
  {
    if gens == [] || n == 0 then []
    else if gens[0].identity == root then Retained(gens[1..], root, n)
    else [gens[0].identity] + Retained(gens[1..], root, n - 1)
  }

  function KnownMetas(id: Identity, metas: seq<Meta>): (r: seq<Meta>)
    ensures forall m :: m in r <==> m in metas && IsKnownObject(id, m.key)
  {
    if metas == [] then []
    else (if IsKnownObject(id, metas[0].key) then [metas[0]] else []) + KnownMetas(id, metas[1..])
  }

  function RootCandidates(id: Identity, metas: seq<Meta>, root: Manifest, now: nat, minAge: nat): (r: seq<Candidate>)
    ensures forall c :: c in r ==>
              && c.generation == id && IsKnownObject(id, c.key) && !References(root, c.key)
              && Meta(c.key, c.version, c.modified) in metas
              && Age(now, Meta(c.key, c.version, c.modified)) >= minAge
  {
    if metas == [] then []
    else (if IsKnownObject(id, metas[0].key) && !References(root, metas[0].key) && Age(now, metas[0]) >= minAge
          then [CandidateOf(id, metas[0])] else [])
         + RootCandidates(id, metas[1..], root, now, minAge)
  }

  function AllCandidates(id: Identity, metas: seq<Meta>): (r: seq<Candidate>)
    ensures forall c :: c in r ==> c.generation == id && Meta(c.key, c.version, c.modified) in metas
  {
    if metas == [] then [] else [CandidateOf(id, metas[0])] + AllCandidates(id, metas[1..])
  }

  datatype Sweep = Sweep(swept: seq<Identity>, candidates: seq<Candidate>)

  function ListingOf(listings: map<Identity, seq<Meta>>, id: Identity): seq<Meta> {
    if id in listings then listings[id] else []
  }

  /** The pass over the active generations. */
  function SweepPass(gens: seq<CatalogEntry>, policy: Policy, retained: seq<Identity>, root: Manifest,
                     listings: map<Identity, seq<Meta>>, now: nat): (r: Sweep)
    ensures forall id :: id in r.swept ==>
              id != policy.root && id !in retained && exists e :: e in gens && e.identity == id
    ensures forall c :: c in r.candidates ==>
              && IsKnownObject(c.generation, c.key)
              && (c.generation == policy.root || c.generation in r.swept)
              && (c.generation == policy.root ==> !References(root, c.key))
              && Meta(c.key, c.version, c.modified) in ListingOf(listings, c.generation)
              && Age(now, Meta(c.key, c.version, c.modified)) >= policy.minAgeMs
  {
    if gens == [] then Sweep([], [])
    else
      var rest := SweepPass(gens[1..], policy, retained, root, listings, now);
      var id := gens[0].identity;
      var metas := ListingOf(listings, id);
      if id == policy.root then
        Sweep(rest.swept, RootCandidates(id, metas, root, now, policy.minAgeMs) + rest.candidates)
      else if id in retained then rest
      else
        var known := KnownMetas(id, metas);
        if exists m :: m in known && Age(now, m) < policy.minAgeMs then rest
        else Sweep([id] + rest.swept, AllCandidates(id, known) + rest.candidates)
  }

  function PlanGc(w: World, policy: Policy, control: Control, root: Manifest,
                  listings: map<Identity, seq<Meta>>, now: nat): Result<Plan>
  {
    var c := Expire(control, now);
    if c.active.Some? then Err(GcBarrierActive)
    else if c.root != Some(policy.root) then Err(GcPlanStale)
    else
      var entry := FindGeneration(c.generations, policy.root);
      if entry.None? then Err(InvalidGc)
      else if !entry.value.lifecycle.Active? then Err(InvalidGc)
      else
        var gens := SortNewest(ActiveOnly(c.generations));
        var retained := Retained(gens, policy.root, policy.retain);
        var sweep := SweepPass(gens, policy, retained, root, listings, now);
        var plan := Plan(policy.operation, c.fence, w.catalogHash(c.generations), c.generations,
                         policy.root, w.sha(ManifestBlob(root)), now, SatAdd(now, policy.graceMs),
                         sweep.swept, sweep.candidates, ZERO);
        Ok(plan.(hash := w.planHash(plan)))
  }

  /** What execution relies on: a plan deletes only segments and snapshots, only of its root or of the
      generations it sweeps, and of its root nothing that a manifest with the root's digest references. */
  ghost predicate SoundPlan(w: World, p: Plan) {
    && Genuine(w, p)
    && p.root !in p.swept
    && (forall c :: c in p.candidates ==>
          IsKnownObject(c.generation, c.key) && (c.generation == p.root || c.generation in p.swept))
    && (forall m: Manifest, c: Candidate ::
          w.sha(ManifestBlob(m)) == p.rootSha && c in p.candidates && c.generation == p.root
          ==> !References(m, c.key))
  }

  lemma PlanIsSound(w: World, policy: Policy, control: Control, root: Manifest,
                    listings: map<Identity, seq<Meta>>, now: nat)
    requires CollisionFreeDigest(w)
    requires PlanGc(w, policy, control, root, listings, now).Ok?
    ensures SoundPlan(w, PlanGc(w, policy, control, root, listings, now).value)
  {
    var p := PlanGc(w, policy, control, root, listings, now).value;
    var q := p.(hash := ZERO);
    assert p.hash == w.planHash(q);
    forall id | id in p.swept ensures exists o :: o in p.observed && o.identity == id {
      var gens := SortNewest(ActiveOnly(p.observed));
      var e :| e in gens && e.identity == id;
      assert e in p.observed;
    }
    forall m: Manifest, c: Candidate |
      w.sha(ManifestBlob(m)) == p.rootSha && c in p.candidates && c.generation == p.root
      ensures !References(m, c.key)
    {
      assert ManifestBlob(m) == ManifestBlob(root);
    }
  }

  lemma {:induction false} RetainedAreNewest(gens: seq<CatalogEntry>, root: Identity, n: nat, g: CatalogEntry,
                                             kept: Identity)
    requires NewestFirst(gens) && g in gens && g.identity != root && g.identity !in Retained(gens, root, n)
    requires kept in Retained(gens, root, n)
    ensures |Retained(gens, root, n)| == n
    ensures kept.generation >= g.identity.generation
  {
    if gens[0].identity == root {
      RetainedAreNewest(gens[1..], root, n, g, kept);
    } else if n == 1 {
      assert Retained(gens[1..], root, 0) == [];
    } else {
      var rest := Retained(gens[1..], root, n - 1);
      if rest != [] {
        RetainedAreNewest(gens[1..], root, n - 1, g, if kept in rest then kept else rest[0]);
      } else {
        NothingRetained(gens[1..], root, n - 1, g);
      }
    }
  }

  lemma {:induction false} NothingRetained(gens: seq<CatalogEntry>, root: Identity, n: nat, g: CatalogEntry)
    requires Retained(gens, root, n) == [] && n > 0
    ensures !(g in gens && g.identity != root)
  {
    if gens != [] { NothingRetained(gens[1..], root, n, g); }
  }

  /** A plan honours its policy: it sweeps an active generation other than the root only when the
      requested number of other active generations, none older than it, is kept; and every object version
      it deletes had reached the minimum age. */
  lemma PlanHonoursPolicy(w: World, policy: Policy, control: Control, root: Manifest,
                          listings: map<Identity, seq<Meta>>, now: nat)
    requires PlanGc(w, policy, control, root, listings, now).Ok?
    ensures var p := PlanGc(w, policy, control, root, listings, now).value;
            var kept := Retained(SortNewest(ActiveOnly(control.generations)), policy.root, policy.retain);
            && (forall id :: id in p.swept ==>
                  && id != policy.root && id !in kept
                  && (exists e :: e in control.generations && e.identity == id && e.lifecycle.Active?)
                  && |kept| == policy.retain
                  && (forall k :: k in kept ==> k.generation >= id.generation))
            && (forall c :: c in p.candidates ==> Age(now, Meta(c.key, c.version, c.modified)) >= policy.minAgeMs)
  {
    var gens := SortNewest(ActiveOnly(control.generations));
    var kept := Retained(gens, policy.root, policy.retain);
    var p := PlanGc(w, policy, control, root, listings, now).value;
    forall id | id in p.swept
      ensures exists e :: e in control.generations && e.identity == id && e.lifecycle.Active?
      ensures |kept| == policy.retain && forall k :: k in kept ==> k.generation >= id.generation
    {
      var e :| e in gens && e.identity == id;
      assert e in control.generations;
      if kept == [] && policy.retain > 0 {
        NothingRetained(gens, policy.root, policy.retain, e);
      } else if kept != [] {
        RetainedAreNewest(gens, policy.root, policy.retain, e, kept[0]);
        forall k | k in kept ensures k.generation >= id.generation {
          RetainedAreNewest(gens, policy.root, policy.retain, e, k);
        }
      }
    }
  }

  // ---------------------------------------------------------------- completeness

  /** A candidate for this object version as listed. */
  predicate Lists(metas: seq<Meta>, c: Candidate) {
    Meta(c.key, c.version, c.modified) in metas
  }

  /** A listed version of the root that nothing needs and that is old enough. */
  predicate Superfluous(id: Identity, metas: seq<Meta>, root: Manifest, now: nat, minAge: nat, c: Candidate) {
    && c.generation == id && Lists(metas, c) && IsKnownObject(id, c.key) && !References(root, c.key)
    && Age(now, Meta(c.key, c.version, c.modified)) >= minAge
  }

  lemma {:induction false} RootCandidatesExactly(id: Identity, metas: seq<Meta>, root: Manifest, now: nat, minAge: nat,
                                                 c: Candidate)
    ensures c in RootCandidates(id, metas, root, now, minAge) <==> Superfluous(id, metas, root, now, minAge, c)
  {
    if metas != [] { RootCandidatesExactly(id, metas[1..], root, now, minAge, c); }
  }

  lemma {:induction false} AllCandidatesExactly(id: Identity, metas: seq<Meta>, c: Candidate)
    ensures c in AllCandidates(id, metas) <==> c.generation == id && Lists(metas, c)
  {
    if metas != [] { AllCandidatesExactly(id, metas[1..], c); }
  }

  /** The generation's listing holds nothing deletable that is still too young. */
  predicate AllOld(id: Identity, metas: seq<Meta>, now: nat, minAge: nat) {
    forall m :: m in metas && IsKnownObject(id, m.key) ==> Age(now, m) >= minAge
  }

  predicate Cataloged(gens: seq<CatalogEntry>, id: Identity) {
    exists e :: e in gens && e.identity == id
  }

  lemma CatalogedMore(gens: seq<CatalogEntry>, id: Identity)
    requires gens != []
    ensures Cataloged(gens, id) <==> gens[0].identity == id || Cataloged(gens[1..], id)
  {
    if Cataloged(gens[1..], id) {
      var e :| e in gens[1..] && e.identity == id;
      assert e in gens;
    }
  }

  lemma {:induction false} SweptExactly(gens: seq<CatalogEntry>, policy: Policy, retained: seq<Identity>,
                                        root: Manifest, listings: map<Identity, seq<Meta>>, now: nat, id: Identity)
    ensures id in SweepPass(gens, policy, retained, root, listings, now).swept <==>
              && Cataloged(gens, id) && id != policy.root && id !in retained
              && AllOld(id, ListingOf(listings, id), now, policy.minAgeMs)
  {
    if gens != [] {
      SweptExactly(gens[1..], policy, retained, root, listings, now, id);
      CatalogedMore(gens, id);
    }
  }

  lemma {:induction false} SweepListsExactly(gens: seq<CatalogEntry>, policy: Policy, retained: seq<Identity>,
                                             root: Manifest, listings: map<Identity, seq<Meta>>, now: nat, c: Candidate)
    ensures var s, metas := SweepPass(gens, policy, retained, root, listings, now), ListingOf(listings, c.generation);
            c in s.candidates <==>
              || (c.generation in s.swept && Lists(metas, c) && IsKnownObject(c.generation, c.key))
              || (Cataloged(gens, policy.root) && Superfluous(policy.root, metas, root, now, policy.minAgeMs, c))
  {
    if gens != [] {
      var id := gens[0].identity;
      var metas := ListingOf(listings, id);
      SweepListsExactly(gens[1..], policy, retained, root, listings, now, c);
      SweptExactly(gens, policy, retained, root, listings, now, c.generation);
      SweptExactly(gens[1..], policy, retained, root, listings, now, c.generation);
      RootCandidatesExactly(id, metas, root, now, policy.minAgeMs, c);
      AllCandidatesExactly(id, KnownMetas(id, metas), c);
      CatalogedMore(gens, policy.root);
      CatalogedMore(gens, c.generation);
    }
  }

  /** The kept generations are others than the root, each once, the requested number or else all there are. */
  lemma {:induction false} RetainedExactly(gens: seq<CatalogEntry>, root: Identity, n: nat)
    requires UniqueIdentities(gens)
    ensures var kept := Retained(gens, root, n);
            && (forall k :: k in kept ==> Cataloged(gens, k))
            && (forall i, j :: 0 <= i < j < |kept| ==> kept[i] != kept[j])
            && (|kept| == n || forall e :: e in gens && e.identity != root ==> e.identity in kept)
  {
    if gens != [] && n > 0 {
      var m := if gens[0].identity == root then n else n - 1;
      RetainedExactly(gens[1..], root, m);
      forall k | k in Retained(gens[1..], root, m) ensures Cataloged(gens, k) && k != gens[0].identity {
        CatalogedMore(gens, k);
      }
      var rest := Retained(gens[1..], root, m);
      assert forall i :: 0 <= i < |rest| ==> rest[i] in rest;
      if gens[0].identity != root { assert gens[0] in gens; }
    }
  }

  // ---------------------------------------------------------------- no candidate twice

  predicate EachOnce(cs: seq<Candidate>) {
    forall i, j :: 0 <= i < j < |cs| ==> cs[i].key != cs[j].key
  }

  predicate ListedOnce(metas: seq<Meta>) {
    forall i, j :: 0 <= i < j < |metas| ==> metas[i].key != metas[j].key
  }

  lemma {:induction false} RootCandidatesOnce(id: Identity, metas: seq<Meta>, root: Manifest, now: nat, minAge: nat)
    requires ListedOnce(metas)
    ensures EachOnce(RootCandidates(id, metas, root, now, minAge))
  {
    if metas != [] {
      RootCandidatesOnce(id, metas[1..], root, now, minAge);
      var rest := RootCandidates(id, metas[1..], root, now, minAge);
      forall k | 0 <= k < |rest| ensures rest[k].key != metas[0].key {
        assert rest[k] in rest && Lists(metas[1..], rest[k]);
      }
    }
  }

  lemma {:induction false} KnownMetasOnce(id: Identity, metas: seq<Meta>)
    requires ListedOnce(metas)
    ensures ListedOnce(KnownMetas(id, metas))
  {
    if metas != [] {
      KnownMetasOnce(id, metas[1..]);
      var rest := KnownMetas(id, metas[1..]);
      forall k | 0 <= k < |rest| ensures rest[k].key != metas[0].key {
        assert rest[k] in rest && rest[k] in metas[1..];
      }
    }
  }

  lemma {:induction false} AllCandidatesOnce(id: Identity, metas: seq<Meta>)
    requires ListedOnce(metas)
    ensures EachOnce(AllCandidates(id, metas))
  {
    if metas != [] {
      AllCandidatesOnce(id, metas[1..]);
      var rest := AllCandidates(id, metas[1..]);
      forall k | 0 <= k < |rest| ensures rest[k].key != metas[0].key {
        assert rest[k] in rest && Lists(metas[1..], rest[k]);
      }
    }
  }

  lemma OnceTogether(a: seq<Candidate>, b: seq<Candidate>)
    requires EachOnce(a) && EachOnce(b)
    requires forall x, y :: x in a && y in b ==> x.key != y.key
    ensures EachOnce(a + b)
  {
    forall i, j | 0 <= i < j < |a + b| ensures (a + b)[i].key != (a + b)[j].key {
      if i < |a| <= j { assert a[i] in a && b[j - |a|] in b; }
    }
  }

  /** The part of a sweep that one generation contributes. */
  lemma PartOnce(id: Identity, policy: Policy, root: Manifest, listings: map<Identity, seq<Meta>>, now: nat)
    requires forall g :: g in listings ==> ListedOnce(listings[g])
    ensures EachOnce(RootCandidates(id, ListingOf(listings, id), root, now, policy.minAgeMs))
    ensures EachOnce(AllCandidates(id, KnownMetas(id, ListingOf(listings, id))))
  {
    RootCandidatesOnce(id, ListingOf(listings, id), root, now, policy.minAgeMs);
    KnownMetasOnce(id, ListingOf(listings, id));
    AllCandidatesOnce(id, KnownMetas(id, ListingOf(listings, id)));
  }

  lemma {:induction false} SweepListsOnce(gens: seq<CatalogEntry>, policy: Policy, retained: seq<Identity>,
                                          root: Manifest, listings: map<Identity, seq<Meta>>, now: nat)
    requires UniqueIdentities(gens) && forall g :: g in listings ==> ListedOnce(listings[g])
    ensures EachOnce(SweepPass(gens, policy, retained, root, listings, now).candidates)
  {
    if gens != [] {
      var id := gens[0].identity;
      var rest := SweepPass(gens[1..], policy, retained, root, listings, now);
      SweepListsOnce(gens[1..], policy, retained, root, listings, now);
      PartOnce(id, policy, root, listings, now);
      forall y | y in rest.candidates ensures y.key.id != id {
        SweepListsExactly(gens[1..], policy, retained, root, listings, now, y);
        SweptExactly(gens[1..], policy, retained, root, listings, now, y.generation);
      }
      OnceTogether(RootCandidates(id, ListingOf(listings, id), root, now, policy.minAgeMs), rest.candidates);
      OnceTogether(AllCandidates(id, KnownMetas(id, ListingOf(listings, id))), rest.candidates);
    }
  }

  // ---------------------------------------------------------------- a whole plan

  lemma {:induction false} ActiveUnique(gens: seq<CatalogEntry>)
    requires UniqueIdentities(gens)
    ensures UniqueIdentities(ActiveOnly(gens))
  {
    if gens != [] {
      ActiveUnique(gens[1..]);
      var rest := ActiveOnly(gens[1..]);
      forall k | 0 <= k < |rest| ensures rest[k].identity != gens[0].identity {
        assert rest[k] in rest && rest[k] in gens[1..];
      }
    }
  }

  lemma {:induction false} InsertNewestUnique(e: CatalogEntry, gens: seq<CatalogEntry>)
    requires UniqueIdentities(gens) && !Cataloged(gens, e.identity)
    ensures UniqueIdentities(InsertNewest(e, gens))
  {
    if gens != [] && gens[0].identity.generation >= e.identity.generation {
      CatalogedMore(gens, e.identity);
      InsertNewestUnique(e, gens[1..]);
      var rest := InsertNewest(e, gens[1..]);
      forall k | 0 <= k < |rest| ensures rest[k].identity != gens[0].identity {
        assert rest[k] in rest;
        assert rest[k] == e || rest[k] in gens[1..];
      }
    } else {
      assert forall k :: 0 <= k < |gens| ==> gens[k] in gens;
    }
  }

  lemma {:induction false} SortNewestUnique(gens: seq<CatalogEntry>)
    requires UniqueIdentities(gens)
    ensures UniqueIdentities(SortNewest(gens))
  {
    if gens != [] {
      var front, last := gens[..|gens| - 1], gens[|gens| - 1];
      SortNewestUnique(front);
      assert forall e :: e in SortNewest(front) ==> e in front;
      InsertNewestUnique(last, SortNewest(front));
    }
  }

  /** The generations a plan keeps besides the root. */
  function Kept(policy: Policy, control: Control): seq<Identity> {
    Retained(SortNewest(ActiveOnly(control.generations)), policy.root, policy.retain)
  }

  predicate ActiveIn(gens: seq<CatalogEntry>, id: Identity) {
    exists e :: e in gens && e.identity == id && e.lifecycle.Active?
  }

  lemma ActiveCataloged(gens: seq<CatalogEntry>, id: Identity)
    ensures Cataloged(SortNewest(ActiveOnly(gens)), id) <==> ActiveIn(gens, id)
  {
    if Cataloged(SortNewest(ActiveOnly(gens)), id) {
      var e :| e in SortNewest(ActiveOnly(gens)) && e.identity == id;
      assert e in ActiveOnly(gens);
    }
    if ActiveIn(gens, id) {
      var e :| e in gens && e.identity == id && e.lifecycle.Active?;
      assert e in ActiveOnly(gens) && e in SortNewest(ActiveOnly(gens));
    }
  }

  /** What a plan keeps besides the root: active generations, each once, the requested number or all others. */
  lemma KeptExactly(policy: Policy, control: Control)
    requires UniqueIdentities(control.generations)
    ensures var kept := Kept(policy, control);
            && (forall k :: k in kept ==> ActiveIn(control.generations, k) && k != policy.root)
            && (forall i, j :: 0 <= i < j < |kept| ==> kept[i] != kept[j])
            && |kept| <= policy.retain
            && (|kept| == policy.retain
                || forall id :: ActiveIn(control.generations, id) && id != policy.root ==> id in kept)
  {
    var gens := SortNewest(ActiveOnly(control.generations));
    ActiveUnique(control.generations);
    SortNewestUnique(ActiveOnly(control.generations));
    RetainedExactly(gens, policy.root, policy.retain);
    forall id ensures Cataloged(gens, id) <==> ActiveIn(control.generations, id) {
      ActiveCataloged(control.generations, id);
    }
  }

  /** A plan is made if and only if no barrier is in force and the requested root is the root and active. */
  lemma PlanIsMadeExactly(w: World, policy: Policy, control: Control, root: Manifest,
                          listings: map<Identity, seq<Meta>>, now: nat)
    requires UniqueIdentities(control.generations)
    ensures var r := PlanGc(w, policy, control, root, listings, now);
            && (r.Ok? <==>
                  !BarrierAt(control, now) && control.root == Some(policy.root)
                  && ActiveIn(control.generations, policy.root))
            && (r.Err? ==>
                  r.error == if BarrierAt(control, now) then GcBarrierActive
                             else if control.root != Some(policy.root) then GcPlanStale else InvalidGc)
  {
    var found := FindGeneration(control.generations, policy.root);
    if ActiveIn(control.generations, policy.root) {
      var e :| e in control.generations && e.identity == policy.root && e.lifecycle.Active?;
      FindsItself(control.generations, e);
    } else if found.Some? {
      assert found.value in control.generations;
    }
  }

  /** A plan is complete.  An active generation other than the root is swept if and only if it is not kept and
      nothing deletable in it is too young; a listed version is a candidate if and only if it is a deletable
      object of a swept generation, or one of the root that the root's manifest does not reference and that is
      old enough; and no object is a candidate twice. */
  lemma PlanIsComplete(w: World, policy: Policy, control: Control, root: Manifest,
                       listings: map<Identity, seq<Meta>>, now: nat)
    requires PlanGc(w, policy, control, root, listings, now).Ok?
    ensures var p := PlanGc(w, policy, control, root, listings, now).value;
            && (forall id :: id in p.swept <==>
                  && ActiveIn(control.generations, id) && id != policy.root && id !in Kept(policy, control)
                  && AllOld(id, ListingOf(listings, id), now, policy.minAgeMs))
            && (forall c :: c in p.candidates <==>
                  var metas := ListingOf(listings, c.generation);
                  || (c.generation in p.swept && Lists(metas, c) && IsKnownObject(c.generation, c.key))
                  || Superfluous(policy.root, metas, root, now, policy.minAgeMs, c))
            && (UniqueIdentities(control.generations) && (forall g :: g in listings ==> ListedOnce(listings[g]))
                ==> EachOnce(p.candidates))
  {
    var gens := SortNewest(ActiveOnly(control.generations));
    var kept := Kept(policy, control);
    var p := PlanGc(w, policy, control, root, listings, now).value;
    forall id ensures id in p.swept <==>
                        && ActiveIn(control.generations, id) && id != policy.root && id !in kept
                        && AllOld(id, ListingOf(listings, id), now, policy.minAgeMs)
    {
      SweptExactly(gens, policy, kept, root, listings, now, id);
      ActiveCataloged(control.generations, id);
    }
    var e := FindGeneration(control.generations, policy.root).value;
    assert e in ActiveOnly(control.generations) && e in gens;
    assert Cataloged(gens, policy.root);
    forall c ensures c in p.candidates <==>
                       var metas := ListingOf(listings, c.generation);
                       || (c.generation in p.swept && Lists(metas, c) && IsKnownObject(c.generation, c.key))
                       || Superfluous(policy.root, metas, root, now, policy.minAgeMs, c)
    {
      SweepListsExactly(gens, policy, kept, root, listings, now, c);
    }
    if UniqueIdentities(control.generations) && (forall g :: g in listings ==> ListedOnce(listings[g])) {
      ActiveUnique(control.generations);
      SortNewestUnique(ActiveOnly(control.generations));
      SweepListsOnce(gens, policy, kept, root, listings, now);
    }
  }

  /** What a plan records of its making; it may be executed once its grace is over. */
  lemma PlanRecords(w: World, policy: Policy, control: Control, root: Manifest,
                    listings: map<Identity, seq<Meta>>, now: nat, t: nat)
    requires PlanGc(w, policy, control, root, listings, now).Ok?
    ensures var p := PlanGc(w, policy, control, root, listings, now).value;
            && p.operation == policy.operation && p.root == policy.root && p.rootSha == w.sha(ManifestBlob(root))
            && p.createdAt == now && p.fence == control.fence && p.observed == control.generations
            && FreshPlan(w, control, p)
            && (t >= p.notBefore <==> t >= now + policy.graceMs || t >= MAX_U64)
  {
  }

  /** The digest of catalogs has no collisions. */
  ghost predicate CollisionFreeCatalogDigest(w: World) {
    forall a: seq<CatalogEntry>, b: seq<CatalogEntry> :: w.catalogHash(a) == w.catalogHash(b) ==> a == b
  }

  /** And it fits no other: a plan obtains the barrier afresh, from a control with no barrier in force, if and only if
      root, fence and catalog are still those it was made from. */
  lemma PlanIsFreshExactly(w: World, policy: Policy, control: Control, root: Manifest,
                           listings: map<Identity, seq<Meta>>, now: nat, c: Control, t: nat)
    requires CollisionFreeCatalogDigest(w) && PlanGc(w, policy, control, root, listings, now).Ok?
    requires !BarrierAt(c, t)
    requires var p := PlanGc(w, policy, control, root, listings, now).value; !ResumedPlan(c, p)
    ensures var p := PlanGc(w, policy, control, root, listings, now).value;
            Apply(w, c, AcquireBarrier(p, t)).Ok? <==>
              c.root == control.root && c.fence == control.fence && c.generations == control.generations
  {
    BarrierTakenExactly(w, c, PlanGc(w, policy, control, root, listings, now).value, t);
  }

  /** A plan fits the control it was made from: until that changes the plan obtains the barrier, enters its delete
      phase once no lease is live, retires all it sweeps, passes the check before each deletion and clears; the
      control is then as before but for the fence, the leases that ran out, and the swept generations, which the
      plan has retired. */
  lemma PlanRunsThrough(w: World, policy: Policy, control: Control, root: Manifest,
                        listings: map<Identity, seq<Meta>>, now: nat, t: nat)
    returns (held: Control, entered: Control, retired: Control, cleared: Control)
    requires UniqueIdentities(control.generations) && PlanGc(w, policy, control, root, listings, now).Ok?
    requires now <= t < MAX_U64 && Drained(control, t)
    ensures var p := PlanGc(w, policy, control, root, listings, now).value;
            && Apply(w, control, AcquireBarrier(p, t)) == Ok(held)
            && Apply(w, held, EnterDelete(p, t)) == Ok(entered)
            && Apply(w, entered, RetirePlan(p, t)) == Ok(retired)
            && ValidateFence(retired, p, t).Ok?
            && Apply(w, retired, ClearBarrier(p)) == Ok(cleared)
            && cleared == Control(SatAdd(control.fence, 1), control.root, cleared.generations, [], None)
            && (forall id :: id in p.swept ==> RetiredBy(cleared, id, p.hash))
            && (forall g :: g !in p.swept ==>
                  FindGeneration(cleared.generations, g) == FindGeneration(control.generations, g))
  {
    var p := PlanGc(w, policy, control, root, listings, now).value;
    PlanIsMadeExactly(w, policy, control, root, listings, now);
    PlanRecords(w, policy, control, root, listings, now, t);
    forall id | id in p.swept
      ensures MayRetire(control.generations, id, p.hash)
      ensures FindGeneration(control.generations, id).value.lifecycle.Active?
    {
      SweptIsActive(w, policy, control, root, listings, now, id);
    }
    held, entered := FreshPlanEnters(w, control, p, t);
    retired, cleared := DeletingPlanFinishes(w, entered, p, t);
  }

  lemma SweptIsActive(w: World, policy: Policy, control: Control, root: Manifest,
                      listings: map<Identity, seq<Meta>>, now: nat, id: Identity)
    requires UniqueIdentities(control.generations) && PlanGc(w, policy, control, root, listings, now).Ok?
    requires id in PlanGc(w, policy, control, root, listings, now).value.swept
    ensures var e := FindGeneration(control.generations, id); e.Some? && e.value.lifecycle.Active?
  {
    PlanIsComplete(w, policy, control, root, listings, now);
    var e :| e in control.generations && e.identity == id && e.lifecycle.Active?;
    FindsItself(control.generations, e);
  }
}
