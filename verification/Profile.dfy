/**
 The benchmark profiler's integer parts: latency histograms that are recorded by workers, merged, and asked
 for percentiles; and the deterministic seed of the SQL profile.
 */
module Profile {
  import opened Model

  // ---------------------------------------------------------------- sorted samples

  predicate Sorted(s: seq<nat>) {
    forall i, j :: 0 <= i < j < |s| ==> s[i] <= s[j]
  }

  function Insert(x: nat, s: seq<nat>): seq<nat> {
    if s == [] || x <= s[0] then [x] + s else [s[0]] + Insert(x, s[1..])
  }

  lemma {:induction false} InsertHolds(x: nat, s: seq<nat>)
    ensures multiset(Insert(x, s)) == multiset{x} + multiset(s)
  {
    if s != [] && x > s[0] {
      InsertHolds(x, s[1..]);
      assert s == [s[0]] + s[1..];
    }
  }

  lemma {:induction false} InsertSorted(x: nat, s: seq<nat>)
    requires Sorted(s)
    ensures Sorted(Insert(x, s))
    ensures forall y :: y in Insert(x, s) ==> y == x || y in s
  {
    if s != [] && x > s[0] {
      InsertSorted(x, s[1..]);
      var rest := Insert(x, s[1..]);
      forall j | 0 <= j < |rest| ensures s[0] <= rest[j] { assert rest[j] in rest; }
    }
  }

  /** The samples in order. */
  function SortSamples(s: seq<nat>): (r: seq<nat>)
    ensures Sorted(r) && multiset(r) == multiset(s)
  {
    if s == [] then []
    else
      var rest := SortSamples(s[1..]);
      InsertHolds(s[0], rest);
      InsertSorted(s[0], rest);
      assert s == [s[0]] + s[1..];
      Insert(s[0], rest)
  }

  lemma SameSize(a: seq<nat>, b: seq<nat>)
    requires multiset(a) == multiset(b)
    ensures |a| == |b|
  {
    assert |multiset(a)| == |a| && |multiset(b)| == |b|;
  }

  lemma DropFirst(a: seq<nat>)
    requires a != []
    ensures multiset(a[1..]) == multiset(a) - multiset{a[0]}
  {
    assert a == [a[0]] + a[1..];
  }

  lemma SameFirst(a: seq<nat>, b: seq<nat>)
    requires Sorted(a) && Sorted(b) && multiset(a) == multiset(b) && a != [] && b != []
    ensures a[0] == b[0]
  {
    assert a[0] in multiset(b) && b[0] in multiset(a);
  }

  /** A sorted sequence is determined by what it holds. */
  lemma {:induction false} SortedIsUnique(a: seq<nat>, b: seq<nat>)
    requires Sorted(a) && Sorted(b) && multiset(a) == multiset(b)
    ensures a == b
  {
    SameSize(a, b);
    if a != [] {
      SameFirst(a, b);
      DropFirst(a);
      DropFirst(b);
      SortedIsUnique(a[1..], b[1..]);
      assert a == [a[0]] + a[1..] && b == [b[0]] + b[1..];
    }
  }

  // ---------------------------------------------------------------- histograms

  datatype Bucket = Bucket(value: nat, count: nat)

  /** A histogram: buckets in ascending order of value, as an ordered map keeps them. */
  predicate Ascending(b: seq<Bucket>) {
    forall i, j :: 0 <= i < j < |b| ==> b[i].value < b[j].value
  }

  function Times(v: nat, n: nat): (s: seq<nat>)
    ensures |s| == n && forall i :: 0 <= i < n ==> s[i] == v
  {
    seq(n, _ => v)
  }

  /** The samples a histogram stands for, in order. */
  function Expand(b: seq<Bucket>): seq<nat> {
    if b == [] then [] else Times(b[0].value, b[0].count) + Expand(b[1..])
  }

  lemma TimesMore(v: nat, n: nat, k: nat)
    ensures Times(v, n + k) == Times(v, n) + Times(v, k)
  {
  }

  /** Adds n to the count of a value. */
  function AddTo(b: seq<Bucket>, v: nat, n: nat): seq<Bucket> {
    if b == [] then [Bucket(v, n)]
    else if v == b[0].value then [Bucket(v, b[0].count + n)] + b[1..]
    else if v < b[0].value then [Bucket(v, n)] + b
    else [b[0]] + AddTo(b[1..], v, n)
  }

  lemma {:induction false} AddToAscends(b: seq<Bucket>, v: nat, n: nat)
    requires Ascending(b)
    ensures Ascending(AddTo(b, v, n))
    ensures forall i :: 0 <= i < |AddTo(b, v, n)| ==>
              AddTo(b, v, n)[i].value == v || exists j :: 0 <= j < |b| && b[j].value == AddTo(b, v, n)[i].value
  {
    if b != [] && v > b[0].value { AddToAscends(b[1..], v, n); }
  }

  lemma {:induction false} AddToAdds(b: seq<Bucket>, v: nat, n: nat)
    ensures multiset(Expand(AddTo(b, v, n))) == multiset(Expand(b)) + multiset(Times(v, n))
  {
    if b == [] {
      assert Expand([Bucket(v, n)]) == Times(v, n) + [];
    } else if v == b[0].value {
      TimesMore(v, b[0].count, n);
      assert ([Bucket(v, b[0].count + n)] + b[1..])[1..] == b[1..];
    } else if v < b[0].value {
      assert ([Bucket(v, n)] + b)[1..] == b;
    } else {
      AddToAdds(b[1..], v, n);
      assert ([b[0]] + AddTo(b[1..], v, n))[1..] == AddTo(b[1..], v, n);
    }
  }

  lemma {:induction false} ExpandSorted(b: seq<Bucket>)
    requires Ascending(b)
    ensures Sorted(Expand(b))
    ensures b != [] ==> forall x :: x in Expand(b) ==> x >= b[0].value
  {
    if b != [] {
      ExpandSorted(b[1..]);
      assert forall x :: x in Expand(b[1..]) ==> x > b[0].value;
      var front, rest := Times(b[0].value, b[0].count), Expand(b[1..]);
      forall i, j | 0 <= i < j < |front + rest| ensures (front + rest)[i] <= (front + rest)[j] {
        if i < |front| <= j { assert rest[j - |front|] in rest; }
      }
    }
  }

  lemma {:induction false} ExpandSplit(b: seq<Bucket>, n: nat)
    requires n < |b|
    ensures Expand(b[..n + 1]) == Expand(b[..n]) + Times(b[n].value, b[n].count)
    ensures |Expand(b[..n + 1])| <= |Expand(b)|
    ensures Expand(b)[..|Expand(b[..n + 1])|] == Expand(b[..n + 1])
  {
    if n == 0 {
      assert b[..1] == [b[0]] && b[..1][1..] == [];
      assert Expand(b[..1]) == Times(b[0].value, b[0].count) + [];
    } else {
      ExpandSplit(b[1..], n - 1);
      assert b[1..][..n] == b[..n + 1][1..] && b[1..][..n - 1] == b[..n][1..];
    }
  }

  // ---------------------------------------------------------------- percentiles

  /** u64::saturating_mul */
  function SatMul(a: nat, b: nat): nat {
    if a * b <= MAX_U64 then a * b else MAX_U64
  }

  function CeilDiv(a: nat, b: nat): nat
    requires b > 0
  {
    (a + b - 1) / b
  }

  function Rank(count: nat, permille: nat): nat {
    Max(CeilDiv(SatMul(count, permille), 1000), 1)
  }

  /** The nearest-rank percentile of sorted samples. */
  function NearestRank(sorted: seq<nat>, permille: nat): Option<nat> {
    var rank := Rank(|sorted|, permille);
    if 1 <= rank <= |sorted| then Some(sorted[rank - 1]) else None
  }

  /** The largest product of count and permille whose rank survives saturation. */
  const EXACT_PRODUCT: nat := 18_446_744_073_709_552_000

  /** The rank is the exact one precisely up to that product; beyond it, saturation lowers it. */
  lemma RankIsExact(count: nat, permille: nat)
    ensures Rank(count, permille) == Max(CeilDiv(count * permille, 1000), 1) <==> count * permille <= EXACT_PRODUCT
    ensures Rank(count, permille) <= Max(CeilDiv(count * permille, 1000), 1)
  {
    var product := count * permille;
  }

  /** Without overflow and up to 1000 permille, the percentile of a non-empty sample is a sample that at
      least this share of all samples do not exceed, and it is the first such. */
  lemma NearestRankMeaning(sorted: seq<nat>, permille: nat)
    requires Sorted(sorted) && sorted != [] && permille <= 1000 && |sorted| * permille <= EXACT_PRODUCT
    ensures NearestRank(sorted, permille).Some?
    ensures var k := Rank(|sorted|, permille);
            && 1 <= k <= |sorted|
            && NearestRank(sorted, permille) == Some(sorted[k - 1])
            && 1000 * k >= |sorted| * permille
            && (k > 1 ==> 1000 * (k - 1) < |sorted| * permille)
            && (forall i :: 0 <= i < k ==> sorted[i] <= sorted[k - 1])
            && (forall i :: k <= i < |sorted| ==> sorted[i] >= sorted[k - 1])
  {
    var n := |sorted|;
    RankIsExact(n, permille);
    assert n * permille <= n * 1000;
  }

  /** Adds the buckets of one histogram to another, one by one. */
  method MergeBuckets(a: seq<Bucket>, b: seq<Bucket>) returns (merged: seq<Bucket>)
    requires Ascending(a)
    ensures Ascending(merged) && multiset(Expand(merged)) == multiset(Expand(a)) + multiset(Expand(b))
  {
    merged := a;
    for n := 0 to |b|
      invariant Ascending(merged)
      invariant multiset(Expand(merged)) == multiset(Expand(a)) + multiset(Expand(b[..n]))
    {
      AddToAscends(merged, b[n].value, b[n].count);
      AddToAdds(merged, b[n].value, b[n].count);
      ExpandSplit(b, n);
      merged := AddTo(merged, b[n].value, b[n].count);
    }
    assert b[..|b|] == b;
  }

  /** The per-worker samples. */
  class Samples {
    var successes: nat
    var errors: nat
    var latency: seq<Bucket>

    ghost predicate Valid()
      reads this
    {
      Ascending(latency) && successes == |Expand(latency)|
    }

    constructor ()
      ensures Valid() && errors == 0 && Expand(latency) == []
    {
      successes, errors, latency := 0, 0, [];
    }

    method Record(micros: nat, ok: bool)
      requires Valid()
      modifies this
      ensures Valid()
      ensures multiset(Expand(latency))
              == multiset(old(Expand(latency))) + (if ok then multiset{micros} else multiset{})
      ensures errors == old(errors) + (if ok then 0 else 1)
    {
      if ok {
        AddToAscends(latency, micros, 1);
        AddToAdds(latency, micros, 1);
        assert Times(micros, 1) == [micros];
        ghost var before := Expand(latency);
        successes := successes + 1;
        latency := AddTo(latency, micros, 1);
        SameSize(Expand(latency), before + [micros]);
      } else {
        errors := errors + 1;
      }
    }

    /** Merging adds up the two workers' samples, bucket by bucket. */
    method Merge(other: Samples)
      requires Valid() && other.Valid() && other != this
      modifies this
      ensures Valid()
      ensures multiset(Expand(latency)) == multiset(old(Expand(latency))) + multiset(Expand(other.latency))
      ensures errors == old(errors) + other.errors
    {
      var merged := MergeBuckets(latency, other.latency);
      SameSize(Expand(merged), Expand(latency) + Expand(other.latency));
      successes := successes + other.successes;
      errors := errors + other.errors;
      latency := merged;
    }

    /** The bucket in which the running count reaches the rank is the nearest-rank percentile. */
    method Percentile(permille: nat) returns (r: Option<nat>)
      requires Valid()
      ensures r == NearestRank(Expand(latency), permille)
    {
      if successes == 0 { return None; }
      var rank := Rank(successes, permille);
      var seen := 0;
      for n := 0 to |latency|
        invariant seen == |Expand(latency[..n])| < rank
      {
        ExpandSplit(latency, n);
        ghost var upTo := Expand(latency[..n + 1]);
        seen := seen + latency[n].count;
        if seen >= rank {
          assert Expand(latency)[rank - 1] == Expand(latency)[..|upTo|][rank - 1] == upTo[rank - 1];
          return Some(latency[n].value);
        }
      }
      assert latency[..|latency|] == latency;
      return None;
    }
  }

  function Concat(parts: seq<seq<nat>>): seq<nat> {
    if parts == [] then [] else Concat(parts[..|parts| - 1]) + parts[|parts| - 1]
  }

  /** However the samples are split over workers, recording them per worker, merging the histograms and
      taking a percentile gives the nearest-rank element of all samples in order. */
  method MergedPercentile(workers: seq<seq<nat>>, permille: nat) returns (r: Option<nat>)
    ensures r == NearestRank(SortSamples(Concat(workers)), permille)
  {
    var total := new Samples();
    for n := 0 to |workers|
      invariant total.Valid() && fresh(total)
      invariant multiset(Expand(total.latency)) == multiset(Concat(workers[..n]))
    {
      var one := RecordAll(workers[n]);
      assert workers[..n + 1][..n] == workers[..n];
      total.Merge(one);
    }
    assert workers[..|workers|] == workers;
    ExpandSorted(total.latency);
    SortedIsUnique(Expand(total.latency), SortSamples(Concat(workers)));
    r := total.Percentile(permille);
  }

  method RecordAll(samples: seq<nat>) returns (one: Samples)
    ensures fresh(one) && one.Valid() && multiset(Expand(one.latency)) == multiset(samples)
  {
    one := new Samples();
    for n := 0 to |samples|
      invariant fresh(one) && one.Valid()
      invariant multiset(Expand(one.latency)) == multiset(samples[..n])
    {
      one.Record(samples[n], true);
      assert samples[..n + 1] == samples[..n] + [samples[n]];
    }
    assert samples[..|samples|] == samples;
  }

  // ---------------------------------------------------------------- the SQL seed

  const KEYSPACE: nat := 256
  const CHUNK: nat := 128 * 1024
  const MIB: nat := 1024 * 1024

  datatype Command = Schema | Padding(id: nat, bytes: nat) | Item(index: nat)

  /** A padding row as read back: its id, its size, and whether its content is all zeros. */
  datatype Row = Row(id: nat, bytes: nat, zeros: bool)

  /** Rows of one padding area: every chunk full but perhaps the last. */
  function PaddingRows(total: nat): (rows: seq<Row>)
    ensures |rows| == CeilDiv(total, CHUNK)
  {
    seq(CeilDiv(total, CHUNK), i requires 0 <= i < CeilDiv(total, CHUNK) =>
      Row(i, if total - i * CHUNK < CHUNK then total - i * CHUNK else CHUNK, true))
  }

  function TotalBytes(rows: seq<Row>): nat {
    if rows == [] then 0 else TotalBytes(rows[..|rows| - 1]) + rows[|rows| - 1].bytes
  }

  /** The closed form of the number of seed commands; None on overflow. */
  function ExpectedSeedReceiptCount(mib: nat): Option<nat> {
    if mib * MIB > MAX_U64 then None
    else if CeilDiv(mib * MIB, CHUNK) + KEYSPACE + 1 > MAX_U64 then None
    else Some(CeilDiv(mib * MIB, CHUNK) + KEYSPACE + 1)
  }

  /** The seed loop.  It fails, after the schema, exactly when the expected count does; otherwise it visits
      exactly the expected number of commands: the schema, padding chunks that add up to the padding size
      and are the rows the validator accepts, and one item per key. */
  method VisitSeedCommands(mib: nat) returns (ok: bool, commands: seq<Command>)
    ensures ok <==> ExpectedSeedReceiptCount(mib).Some?
    ensures !ok ==> commands == [Schema]
    ensures ok ==>
              && |commands| == ExpectedSeedReceiptCount(mib).value
              && var rows := PaddingRows(mib * MIB);
              && TotalBytes(rows) == mib * MIB
              && commands[0] == Schema
              && (forall i :: 0 <= i < |rows| ==> commands[1 + i] == Padding(rows[i].id, rows[i].bytes))
              && (forall i :: 0 <= i < KEYSPACE ==> commands[1 + |rows| + i] == Item(i))
  {
    commands := [Schema];
    var padding := mib * MIB;
    if padding > MAX_U64 { return false, commands; }
    var chunks := VisitPadding(padding);
    ghost var rows := PaddingRows(padding);
    commands := commands + chunks;
    for index := 0 to KEYSPACE
      invariant |commands| == 1 + |rows| + index && commands[..1 + |rows|] == [Schema] + chunks
      invariant forall i :: 0 <= i < index ==> commands[1 + |rows| + i] == Item(i)
    {
      commands := commands + [Item(index)];
    }
    ok := true;
    forall i | 0 <= i < |rows| ensures commands[1 + i] == Padding(rows[i].id, rows[i].bytes) {
      assert commands[1 + i] == commands[..1 + |rows|][1 + i];
    }
  }

  /** The padding loop: full chunks and a remainder, numbered from zero, that add up to the padding. */
  method VisitPadding(padding: nat) returns (chunks: seq<Command>)
    ensures var rows := PaddingRows(padding);
            && |chunks| == |rows| && TotalBytes(rows) == padding
            && forall i :: 0 <= i < |rows| ==> chunks[i] == Padding(rows[i].id, rows[i].bytes)
  {
    var inserted, id := 0, 0;
    chunks := [];
    ghost var rows := PaddingRows(padding);
    while inserted < padding
      invariant id <= |rows| && |chunks| == id
      invariant inserted == (if id * CHUNK < padding then id * CHUNK else padding)
      invariant inserted == TotalBytes(rows[..id])
      invariant forall i :: 0 <= i < id ==> chunks[i] == Padding(rows[i].id, rows[i].bytes)
      decreases padding - inserted
    {
      var bytes := if CHUNK < padding - inserted then CHUNK else padding - inserted;
      assert rows[..id + 1][..id] == rows[..id];
      chunks := chunks + [Padding(id, bytes)];
      inserted := inserted + bytes;
      id := id + 1;
    }
    assert rows[..id] == rows;
  }

  /** The row validator accepts exactly the rows the seed inserts. */
  method ValidatePaddingRows(rows: seq<Row>, mib: nat) returns (ok: bool)
    ensures ok <==> mib * MIB <= MAX_U64 && rows == PaddingRows(mib * MIB)
  {
    var padding := mib * MIB;
    if padding > MAX_U64 { return false; }
    ghost var expectedRows := PaddingRows(padding);
    if |rows| != CeilDiv(padding, CHUNK) { return false; }
    for index := 0 to |rows|
      invariant forall i :: 0 <= i < index ==> rows[i] == expectedRows[i]
    {
      var offset := index * CHUNK;
      var expected := if CHUNK < padding - offset then CHUNK else padding - offset;
      if rows[index] != Row(index, expected, true) { return false; }
    }
    return true;
  }
}
