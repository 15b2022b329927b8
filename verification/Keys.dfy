/**
 The printed form of object keys, and the recognisers that decide which listed objects a collector may
 delete.  Printing and recognition agree with the structured keys used everywhere else.
 */
module Keys {
  import opened Model
  import opened GcPlanning

  // ---------------------------------------------------------------- strings

  predicate StartsWith(s: string, prefix: string) {
    |prefix| <= |s| && s[..|prefix|] == prefix
  }

  predicate EndsWith(s: string, suffix: string) {
    |suffix| <= |s| && s[|s| - |suffix|..] == suffix
  }

  /** str::trim_end_matches: removes the suffix as often as it occurs. */
  function TrimEnd(s: string, suffix: string): (r: string)
    requires suffix != ""
    ensures !EndsWith(r, suffix)
    decreases |s|
  {
    if EndsWith(s, suffix) then TrimEnd(s[..|s| - |suffix|], suffix) else s
  }

  /** str::split_once */
  function SplitOnce(s: string, c: char): (r: Option<(string, string)>)
    ensures r.None? <==> c !in s
    ensures r.Some? ==> c !in r.value.0 && s == r.value.0 + [c] + r.value.1
  {
    if s == "" then None
    else if s[0] == c then Some(("", s[1..]))
    else match SplitOnce(s[1..], c)
         case None => None
         case Some((a, b)) =>
           assert s == [s[0]] + s[1..];
           Some(([s[0]] + a, b))
  }

  /** str::split */
  function Split(s: string, c: char): (parts: seq<string>)
    ensures parts != []
    decreases |s|
  {
    match SplitOnce(s, c)
    case None => [s]
    case Some((a, b)) => [a] + Split(b, c)
  }

  function Join(parts: seq<string>, c: char): string
    requires parts != []
  {
    if |parts| == 1 then parts[0] else parts[0] + [c] + Join(parts[1..], c)
  }

  lemma {:induction false} JoinSplit(s: string, c: char)
    ensures Join(Split(s, c), c) == s
    decreases |s|
  {
    var parts := SplitOnce(s, c);
    if parts.Some? {
      JoinSplit(parts.value.1, c);
      assert Split(s, c)[1..] == Split(parts.value.1, c);
    }
  }

  lemma {:induction false} SplitJoin(parts: seq<string>, c: char)
    requires parts != [] && forall i :: 0 <= i < |parts| ==> c !in parts[i]
    ensures Split(Join(parts, c), c) == parts
  {
    if |parts| > 1 {
      SplitOnceAt(parts[0], c, Join(parts[1..], c));
      SplitJoin(parts[1..], c);
    }
  }

  lemma {:induction false} JoinChars(parts: seq<string>, c: char, x: char)
    requires parts != [] && x in Join(parts, c)
    ensures x == c || exists i :: 0 <= i < |parts| && x in parts[i]
  {
    if |parts| > 1 && x != c && x !in parts[0] {
      JoinChars(parts[1..], c, x);
      var i :| 0 <= i < |parts[1..]| && x in parts[1..][i];
      assert x in parts[i + 1];
    } else if |parts| == 1 {
      assert x in parts[0];
    }
  }

  lemma {:induction false} JoinEnds(parts: seq<string>, c: char)
    requires parts != [] && parts[|parts| - 1] != ""
    ensures Join(parts, c) != ""
    ensures Join(parts, c)[|Join(parts, c)| - 1] == parts[|parts| - 1][|parts[|parts| - 1]| - 1]
  {
    if |parts| > 1 { JoinEnds(parts[1..], c); }
  }

  function Repeat(s: string, k: nat): string {
    if k == 0 then "" else Repeat(s, k - 1) + s
  }

  lemma {:induction false} SplitOnceAt(a: string, c: char, b: string)
    requires c !in a
    ensures SplitOnce(a + [c] + b, c) == Some((a, b))
  {
    if a == "" {
      assert ([c] + b)[1..] == b;
      assert a + [c] + b == [c] + b;
    } else {
      var s := a + [c] + b;
      SplitOnceAt(a[1..], c, b);
      assert s[1..] == a[1..] + [c] + b && s[0] == a[0] && a[0] in a;
      assert [a[0]] + a[1..] == a;
    }
  }

  lemma TrimOne(t: string, suffix: string)
    requires suffix != ""
    ensures EndsWith(t + suffix, suffix) && TrimEnd(t + suffix, suffix) == TrimEnd(t, suffix)
  {
    var s := t + suffix;
    assert s[|s| - |suffix|..] == suffix && s[..|s| - |suffix|] == t;
  }

  lemma RepeatMore(s: string, suffix: string, k: nat)
    requires k > 0
    ensures s + Repeat(suffix, k) == (s + Repeat(suffix, k - 1)) + suffix
  {
  }

  lemma {:induction false} TrimEndRepeats(s: string, suffix: string, k: nat)
    requires suffix != "" && !EndsWith(s, suffix)
    ensures TrimEnd(s + Repeat(suffix, k), suffix) == s
  {
    if k == 0 {
      assert s + Repeat(suffix, 0) == s;
    } else {
      var t := s + Repeat(suffix, k - 1);
      TrimEndRepeats(s, suffix, k - 1);
      assert TrimEnd(t, suffix) == s;
      TrimOne(t, suffix);
      RepeatMore(s, suffix, k);
    }
  }

  lemma LastChar(s: string, suffix: string)
    requires suffix != ""
    ensures EndsWith(s, suffix) ==> s != "" && s[|s| - 1] == suffix[|suffix| - 1]
  {
    if EndsWith(s, suffix) { assert s[|s| - 1] == s[|s| - |suffix|..][|suffix| - 1]; }
  }

  lemma {:induction false} TrimmedRepeats(s: string, suffix: string) returns (k: nat)
    requires suffix != ""
    ensures s == TrimEnd(s, suffix) + Repeat(suffix, k)
    ensures EndsWith(s, suffix) ==> k > 0
    decreases |s|
  {
    k := 0;
    if EndsWith(s, suffix) {
      var front := s[..|s| - |suffix|];
      var n := TrimmedRepeats(front, suffix);
      k := n + 1;
      assert s == front + suffix;
      RepeatMore(TrimEnd(front, suffix), suffix, k);
    } else {
      assert Repeat(suffix, 0) == "";
    }
  }

  lemma SameLengthSplit(a: string, b: string, c: string, d: string)
    requires a + b == c + d && |a| == |c|
    ensures a == c && b == d
  {
    assert a == (a + b)[..|a|] && c == (c + d)[..|c|];
    assert b == (a + b)[|a|..] && d == (c + d)[|c|..];
  }

  // ---------------------------------------------------------------- numbers

  const DIGITS: string := "0123456789abcdef"

  datatype Radix = Decimals | Hexadecimals

  function Quotient(n: nat, radix: Radix): nat {
    if radix.Decimals? then n / 10 else n / 16
  }

  function LastDigit(n: nat, radix: Radix): char {
    if radix.Decimals? then DIGITS[n % 10] else DIGITS[n % 16]
  }

  /** Whether n can be written with `width` digits. */
  predicate Fits(n: nat, width: nat, radix: Radix) {
    if width == 0 then n == 0 else Fits(Quotient(n, radix), width - 1, radix)
  }

  predicate IsDigit(c: char) {
    '0' <= c <= '9'
  }

  /** u8::is_ascii_hexdigit; capital letters count. */
  predicate IsHexDigit(c: char) {
    IsDigit(c) || 'a' <= c <= 'f' || 'A' <= c <= 'F'
  }

  /** The last `width` digits of n, with leading zeros. */
  function Pad(n: nat, width: nat, radix: Radix): (s: string)
    ensures |s| == width
    ensures forall c :: c in s ==> IsHexDigit(c)
    ensures radix.Decimals? ==> forall c :: c in s ==> IsDigit(c)
  {
    if width == 0 then "" else Pad(Quotient(n, radix), width - 1, radix) + [LastDigit(n, radix)]
  }

  lemma {:induction false} PadInjective(a: nat, b: nat, width: nat, radix: Radix)
    requires Fits(a, width, radix) && Fits(b, width, radix)
    requires Pad(a, width, radix) == Pad(b, width, radix)
    ensures a == b
  {
    if width > 0 {
      SameLengthSplit(Pad(Quotient(a, radix), width - 1, radix), [LastDigit(a, radix)],
                      Pad(Quotient(b, radix), width - 1, radix), [LastDigit(b, radix)]);
      PadInjective(Quotient(a, radix), Quotient(b, radix), width - 1, radix);
      SameQuotientAndDigit(a, b, radix);
    }
  }

  lemma SameQuotientAndDigit(a: nat, b: nat, radix: Radix)
    requires Quotient(a, radix) == Quotient(b, radix) && [LastDigit(a, radix)] == [LastDigit(b, radix)]
    ensures a == b
  {
    assert [LastDigit(a, radix)][0] == [LastDigit(b, radix)][0];
    if radix.Decimals? { DigitsDiffer(a % 10, b % 10); } else { DigitsDiffer(a % 16, b % 16); }
  }

  lemma DigitsDiffer(i: nat, j: nat)
    requires i < 16 && j < 16 && DIGITS[i] == DIGITS[j]
    ensures i == j
  {
  }

  /** A u64 as 20 decimal digits. */
  function Decimal(n: nat): string { Pad(n, 20, Decimals) }

  /** A digest as 64 hexadecimal digits. */
  function Hex(h: Hash): string { Pad(h, 64, Hexadecimals) }

  function PowerOfTen(k: nat): nat {
    if k == 0 then 1 else 10 * PowerOfTen(k - 1)
  }

  lemma {:induction false} BelowPowerFits(n: nat, k: nat)
    requires n < PowerOfTen(k)
    ensures Fits(n, k, Decimals)
  {
    if k > 0 { BelowPowerFits(n / 10, k - 1); }
  }

  lemma DecimalInjective(a: nat, b: nat)
    requires a <= MAX_U64 && b <= MAX_U64 && Decimal(a) == Decimal(b)
    ensures a == b
  {
    assert PowerOfTen(20) > MAX_U64 by {
      assert PowerOfTen(5) == 100000;
      assert PowerOfTen(10) == 100000 * PowerOfTen(5);
      assert PowerOfTen(15) == 100000 * PowerOfTen(10);
      assert PowerOfTen(20) == 100000 * PowerOfTen(15);
    }
    BelowPowerFits(a, 20);
    BelowPowerFits(b, 20);
    PadInjective(a, b, 20, Decimals);
  }

  // ---------------------------------------------------------------- printing

  function Coordinates(id: Identity): string {
    Decimal(id.epoch) + ("/config-" + (Decimal(id.config) + ("/generation-" + Decimal(id.generation))))
  }

  function Namespace(id: Identity): string {
    ("rhiza/" + id.cluster + "/checkpoints/epoch-") + Coordinates(id)
  }

  const SEGMENTS: string := "/segments/"
  const SNAPSHOTS: string := "/snapshots/"
  const QLOG: string := ".qlog"
  const SNAPSHOT: string := ".snapshot"
  const JSON: string := ".json"

  function SegmentBody(start: nat, end: nat): string {
    Decimal(start) + "-" + Decimal(end)
  }

  function SnapshotTail(digest: Hash, fingerprint: Option<Hash>): string {
    if fingerprint.Some? then Hex(digest) + "-" + Hex(fingerprint.value) else Hex(digest)
  }

  function SnapshotBody(index: nat, hash: Hash, digest: Hash, fingerprint: Option<Hash>): string {
    Decimal(index) + "-" + (Hex(hash) + "-" + SnapshotTail(digest, fingerprint))
  }

  /** The object key as the store sees it. */
  function Print(key: Key): string {
    match key
    case ManifestKey(id) => Namespace(id) + "/manifest.json"
    case SegmentKey(id, start, end) => Namespace(id) + SEGMENTS + (SegmentBody(start, end) + QLOG)
    case SnapshotKey(id, index, hash, digest, fingerprint) =>
      Namespace(id) + SNAPSHOTS + (SnapshotBody(index, hash, digest, fingerprint) + SNAPSHOT)
  }

  datatype GcKey =
    | ControlKey
    | PlanKey(planHash: string)
    | EvidenceKey(planHash: string, name: string)
    | ReportKey(planHash: string)

  function PrintGc(cluster: string, key: GcKey): string {
    var prefix := "rhiza/" + cluster + "/gc";
    match key
    case ControlKey => prefix + "/control" + JSON
    case PlanKey(h) => prefix + "/plans/" + h + JSON
    case EvidenceKey(h, o) => prefix + "/evidence/" + h + "/" + o + JSON
    case ReportKey(h) => prefix + "/reports/" + h + JSON
  }

  predicate InRange(id: Identity) {
    id.epoch <= MAX_U64 && id.config <= MAX_U64 && id.generation <= MAX_U64
  }

  // ---------------------------------------------------------------- recognition

  predicate AllDigits(s: string) {
    |s| == 20 && forall c :: c in s ==> IsDigit(c)
  }

  predicate AllHex(s: string) {
    |s| == 64 && forall c :: c in s ==> IsHexDigit(c)
  }

  predicate SegmentName(name: string) {
    && '/' !in name && EndsWith(name, QLOG)
    && var parts := SplitOnce(TrimEnd(name, QLOG), '-');
    parts.Some? && AllDigits(parts.value.0) && AllDigits(parts.value.1)
  }

  predicate SnapshotName(name: string) {
    && '/' !in name && EndsWith(name, SNAPSHOT)
    && SnapshotParts(Split(TrimEnd(name, SNAPSHOT), '-'))
  }

  predicate IsKnownSegment(id: Identity, key: string) {
    var prefix := Namespace(id) + SEGMENTS;
    StartsWith(key, prefix) && SegmentName(key[|prefix|..])
  }

  predicate IsKnownSnapshot(id: Identity, key: string) {
    var prefix := Namespace(id) + SNAPSHOTS;
    StartsWith(key, prefix) && SnapshotName(key[|prefix|..])
  }

  predicate IsKnown(id: Identity, key: string) {
    IsKnownSegment(id, key) || IsKnownSnapshot(id, key)
  }

  // ---------------------------------------------------------------- recognised names, exactly

  lemma RepeatChars(s: string, k: nat, c: char)
    requires c in Repeat(s, k)
    ensures c in s
  {
  }

  /** A segment name is recognised exactly when it is two 20-digit numbers, a dash between them, and the
      suffix once or more often. */
  lemma SegmentNamesExactly(name: string)
    ensures SegmentName(name) <==>
            exists a: string, b: string, k: nat ::
              AllDigits(a) && AllDigits(b) && k >= 1 && name == a + "-" + b + Repeat(QLOG, k)
  {
    if SegmentName(name) {
      var k := TrimmedRepeats(name, QLOG);
      var parts := SplitOnce(TrimEnd(name, QLOG), '-').value;
      assert name == parts.0 + "-" + parts.1 + Repeat(QLOG, k);
    }
    if a: string, b: string, k: nat :| AllDigits(a) && AllDigits(b) && k >= 1 && name == a + "-" + b + Repeat(QLOG, k) {
      SegmentNameRecognised(a, b, k);
    }
  }

  lemma RepeatedSuffix(body: string, suffix: string, k: nat)
    requires suffix != "" && k >= 1 && !EndsWith(body, suffix) && '/' !in body && '/' !in suffix
    ensures var name := body + Repeat(suffix, k);
            '/' !in name && EndsWith(name, suffix) && TrimEnd(name, suffix) == body
  {
    if '/' in Repeat(suffix, k) { RepeatChars(suffix, k, '/'); }
    RepeatMore(body, suffix, k);
    TrimOne(body + Repeat(suffix, k - 1), suffix);
    TrimEndRepeats(body, suffix, k);
  }

  lemma SegmentNameRecognised(a: string, b: string, k: nat)
    requires AllDigits(a) && AllDigits(b) && k >= 1
    ensures SegmentName(a + "-" + b + Repeat(QLOG, k))
  {
    var body := a + "-" + b;
    assert body[|body| - 1] == b[19] && b[19] in b;
    LastChar(body, QLOG);
    RepeatedSuffix(body, QLOG, k);
    assert '-' !in a;
    SplitOnceAt(a, '-', b);
  }

  predicate SnapshotParts(parts: seq<string>) {
    && (|parts| == 3 || |parts| == 4)
    && AllDigits(parts[0])
    && forall i :: 1 <= i < |parts| ==> AllHex(parts[i])
  }

  /** A snapshot name is recognised exactly when it is a 20-digit number and two or three 64-digit hexadecimal
      ones, dashes between them, and the suffix once or more often. */
  lemma SnapshotNamesExactly(name: string)
    ensures SnapshotName(name) <==>
            exists parts: seq<string>, k: nat ::
              SnapshotParts(parts) && k >= 1 && name == Join(parts, '-') + Repeat(SNAPSHOT, k)
  {
    if SnapshotName(name) {
      var k := TrimmedRepeats(name, SNAPSHOT);
      var parts := Split(TrimEnd(name, SNAPSHOT), '-');
      JoinSplit(TrimEnd(name, SNAPSHOT), '-');
      assert SnapshotParts(parts) && name == Join(parts, '-') + Repeat(SNAPSHOT, k);
    }
    if parts: seq<string>, k: nat :| SnapshotParts(parts) && k >= 1 && name == Join(parts, '-') + Repeat(SNAPSHOT, k) {
      SnapshotNameRecognised(parts, k);
    }
  }

  lemma PartChars(parts: seq<string>, i: nat, c: char)
    requires SnapshotParts(parts) && i < |parts| && c in parts[i]
    ensures IsHexDigit(c)
  {
    if i > 0 { assert AllHex(parts[i]); }
  }

  lemma SnapshotBodyChars(parts: seq<string>)
    requires SnapshotParts(parts)
    ensures '/' !in Join(parts, '-') && forall i :: 0 <= i < |parts| ==> '-' !in parts[i]
  {
    if '/' in Join(parts, '-') {
      JoinChars(parts, '-', '/');
      var i :| 0 <= i < |parts| && '/' in parts[i];
      PartChars(parts, i, '/');
    }
    forall i | 0 <= i < |parts| ensures '-' !in parts[i] {
      if '-' in parts[i] { PartChars(parts, i, '-'); }
    }
  }

  lemma SnapshotBodyEnd(parts: seq<string>)
    requires SnapshotParts(parts)
    ensures !EndsWith(Join(parts, '-'), SNAPSHOT)
  {
    var last := parts[|parts| - 1];
    assert AllHex(last) && last[63] in last;
    JoinEnds(parts, '-');
    LastChar(Join(parts, '-'), SNAPSHOT);
  }

  lemma SnapshotNameRecognised(parts: seq<string>, k: nat)
    requires SnapshotParts(parts) && k >= 1
    ensures SnapshotName(Join(parts, '-') + Repeat(SNAPSHOT, k))
  {
    SnapshotBodyChars(parts);
    SnapshotBodyEnd(parts);
    RepeatedSuffix(Join(parts, '-'), SNAPSHOT, k);
    SplitJoin(parts, '-');
  }

  lemma BodyIsJoin(index: nat, hash: Hash, digest: Hash, fingerprint: Option<Hash>) returns (parts: seq<string>)
    ensures SnapshotParts(parts) && SnapshotBody(index, hash, digest, fingerprint) == Join(parts, '-')
  {
    var tail := [Hex(digest)] + (if fingerprint.Some? then [Hex(fingerprint.value)] else []);
    assert Join(tail, '-') == SnapshotTail(digest, fingerprint);
    var rest := [Hex(hash)] + tail;
    assert rest[1..] == tail;
    parts := [Decimal(index)] + rest;
    assert parts[1..] == rest;
  }

  // ---------------------------------------------------------------- printed keys are recognised

  lemma PrintedIsRecognised(key: Key)
    requires !key.ManifestKey?
    ensures IsKnown(key.id, Print(key))
  {
    match key
    case SegmentKey(id, start, end) =>
      var prefix := Namespace(id) + SEGMENTS;
      assert Print(key)[|prefix|..] == SegmentBody(start, end) + QLOG;
      assert Repeat(QLOG, 1) == QLOG;
      SegmentNameRecognised(Decimal(start), Decimal(end), 1);
    case SnapshotKey(id, index, hash, digest, fingerprint) =>
      var prefix := Namespace(id) + SNAPSHOTS;
      assert Print(key)[|prefix|..] == SnapshotBody(index, hash, digest, fingerprint) + SNAPSHOT;
      var parts := BodyIsJoin(index, hash, digest, fingerprint);
      assert Repeat(SNAPSHOT, 1) == SNAPSHOT;
      SnapshotNameRecognised(parts, 1);
  }

  // ---------------------------------------------------------------- one identity only

  lemma CoordinatesInjective(a: Identity, b: Identity)
    requires a.cluster == b.cluster && InRange(a) && InRange(b) && Coordinates(a) == Coordinates(b)
    ensures a == b
  {
    var a2 := Decimal(a.config) + ("/generation-" + Decimal(a.generation));
    var b2 := Decimal(b.config) + ("/generation-" + Decimal(b.generation));
    SameLengthSplit(Decimal(a.epoch), "/config-" + a2, Decimal(b.epoch), "/config-" + b2);
    SameLengthSplit("/config-", a2, "/config-", b2);
    SameLengthSplit(Decimal(a.config), "/generation-" + Decimal(a.generation),
                    Decimal(b.config), "/generation-" + Decimal(b.generation));
    SameLengthSplit("/generation-", Decimal(a.generation), "/generation-", Decimal(b.generation));
    DecimalInjective(a.epoch, b.epoch);
    DecimalInjective(a.config, b.config);
    DecimalInjective(a.generation, b.generation);
  }

  /** Two namespaces of one cluster that begin the same key are the same. */
  lemma NamespaceOfKey(a: Identity, b: Identity, key: string)
    requires a.cluster == b.cluster && InRange(a) && InRange(b)
    requires StartsWith(key, Namespace(a)) && StartsWith(key, Namespace(b))
    ensures a == b
  {
    var front := "rhiza/" + a.cluster + "/checkpoints/epoch-";
    assert |Namespace(a)| == |Namespace(b)|;
    assert Namespace(a) == Namespace(b);
    SameLengthSplit(front, Coordinates(a), front, Coordinates(b));
    CoordinatesInjective(a, b);
  }

  lemma KnownStartsWithNamespace(id: Identity, key: string)
    requires IsKnown(id, key)
    ensures StartsWith(key, Namespace(id))
    ensures !EndsWith(key, JSON)
  {
    var prefix := Namespace(id) + (if IsKnownSegment(id, key) then SEGMENTS else SNAPSHOTS);
    assert Namespace(id) == prefix[..|Namespace(id)|];
    var name := key[|prefix|..];
    LastChar(name, QLOG);
    LastChar(name, SNAPSHOT);
    LastChar(key, JSON);
    assert key[|key| - 1] == name[|name| - 1];
  }

  /** No key whatever is recognised for two identities of one cluster. */
  lemma RecognisedForOneIdentity(a: Identity, b: Identity, key: string)
    requires a.cluster == b.cluster && InRange(a) && InRange(b)
    requires IsKnown(a, key) && IsKnown(b, key)
    ensures a == b
  {
    KnownStartsWithNamespace(a, key);
    KnownStartsWithNamespace(b, key);
    NamespaceOfKey(a, b, key);
  }

  /** No control, plan, evidence or report key, of any cluster, is ever recognised as deletable. */
  lemma BookkeepingIsNeverRecognised(id: Identity, cluster: string, key: GcKey)
    ensures !IsKnown(id, PrintGc(cluster, key))
  {
    assert EndsWith(PrintGc(cluster, key), JSON);
    if IsKnown(id, PrintGc(cluster, key)) { KnownStartsWithNamespace(id, PrintGc(cluster, key)); }
  }

  lemma PrintStartsWithNamespace(key: Key)
    ensures StartsWith(Print(key), Namespace(key.id))
    ensures key.ManifestKey? ==> EndsWith(Print(key), JSON)
  {
    if key.ManifestKey? { assert Print(key) == (Namespace(key.id) + "/manifest") + JSON; }
  }

  /** Recognising a printed key is exactly recognising the structured key it stands for. */
  lemma RecognitionAgrees(id: Identity, key: Key)
    requires id.cluster == key.id.cluster && InRange(id) && InRange(key.id)
    ensures IsKnown(id, Print(key)) <==> IsKnownObject(id, key)
  {
    PrintStartsWithNamespace(key);
    if IsKnown(id, Print(key)) {
      KnownStartsWithNamespace(id, Print(key));
      NamespaceOfKey(id, key.id, Print(key));
    }
    if IsKnownObject(id, key) { PrintedIsRecognised(key); }
  }

  // ---------------------------------------------------------------- printed keys are distinct

  predicate IsDigest(h: Hash) {
    Fits(h, 64, Hexadecimals)
  }

  predicate KeyInRange(key: Key) {
    && InRange(key.id)
    && (key.SegmentKey? ==> key.start <= MAX_U64 && key.end <= MAX_U64)
    && (key.SnapshotKey? ==>
          && key.index <= MAX_U64 && IsDigest(key.hash) && IsDigest(key.digest)
          && (key.fingerprint.Some? ==> IsDigest(key.fingerprint.value)))
  }

  /** What follows the namespace in a printed key. */
  function Rest(key: Key): string {
    match key
    case ManifestKey(_) => "/manifest.json"
    case SegmentKey(_, start, end) => SEGMENTS + (SegmentBody(start, end) + QLOG)
    case SnapshotKey(_, index, hash, digest, fingerprint) =>
      SNAPSHOTS + (SnapshotBody(index, hash, digest, fingerprint) + SNAPSHOT)
  }

  lemma PrintParts(key: Key)
    ensures Print(key) == Namespace(key.id) + Rest(key)
  {
  }

  lemma RestTellsKind(a: Key, b: Key)
    requires Rest(a) == Rest(b)
    ensures a.ManifestKey? == b.ManifestKey? && a.SegmentKey? == b.SegmentKey?
  {
    assert a.ManifestKey? ==> Rest(a)[1] == 'm';
    assert b.ManifestKey? ==> Rest(b)[1] == 'm';
    assert a.SegmentKey? ==> Rest(a)[1] == 's' && Rest(a)[2] == 'e';
    assert b.SegmentKey? ==> Rest(b)[1] == 's' && Rest(b)[2] == 'e';
    assert a.SnapshotKey? ==> Rest(a)[1] == 's' && Rest(a)[2] == 'n';
    assert b.SnapshotKey? ==> Rest(b)[1] == 's' && Rest(b)[2] == 'n';
  }

  lemma SegmentBodyInjective(a: nat, b: nat, c: nat, d: nat)
    requires a <= MAX_U64 && b <= MAX_U64 && c <= MAX_U64 && d <= MAX_U64 && SegmentBody(a, b) == SegmentBody(c, d)
    ensures a == c && b == d
  {
    SameLengthSplit(Decimal(a) + "-", Decimal(b), Decimal(c) + "-", Decimal(d));
    SameLengthSplit(Decimal(a), "-", Decimal(c), "-");
    DecimalInjective(a, c);
    DecimalInjective(b, d);
  }

  lemma SnapshotTailInjective(a: Hash, f: Option<Hash>, b: Hash, g: Option<Hash>)
    requires IsDigest(a) && IsDigest(b) && (f.Some? ==> IsDigest(f.value)) && (g.Some? ==> IsDigest(g.value))
    requires SnapshotTail(a, f) == SnapshotTail(b, g)
    ensures a == b && f == g
  {
    assert |SnapshotTail(a, f)| == if f.Some? then 129 else 64;
    if f.Some? {
      SameLengthSplit(Hex(a) + "-", Hex(f.value), Hex(b) + "-", Hex(g.value));
      SameLengthSplit(Hex(a), "-", Hex(b), "-");
      PadInjective(f.value, g.value, 64, Hexadecimals);
    }
    PadInjective(a, b, 64, Hexadecimals);
  }

  lemma SnapshotBodyInjective(i: nat, h: Hash, a: Hash, f: Option<Hash>, j: nat, k: Hash, b: Hash, g: Option<Hash>)
    requires i <= MAX_U64 && j <= MAX_U64 && IsDigest(h) && IsDigest(k) && IsDigest(a) && IsDigest(b)
    requires (f.Some? ==> IsDigest(f.value)) && (g.Some? ==> IsDigest(g.value))
    requires SnapshotBody(i, h, a, f) == SnapshotBody(j, k, b, g)
    ensures i == j && h == k && a == b && f == g
  {
    var x, y := Hex(h) + "-" + SnapshotTail(a, f), Hex(k) + "-" + SnapshotTail(b, g);
    SameLengthSplit(Decimal(i) + "-", x, Decimal(j) + "-", y);
    SameLengthSplit(Decimal(i), "-", Decimal(j), "-");
    SameLengthSplit(Hex(h) + "-", SnapshotTail(a, f), Hex(k) + "-", SnapshotTail(b, g));
    SameLengthSplit(Hex(h), "-", Hex(k), "-");
    DecimalInjective(i, j);
    PadInjective(h, k, 64, Hexadecimals);
    SnapshotTailInjective(a, f, b, g);
  }

  lemma DropSuffix(a: string, b: string, suffix: string)
    requires a + suffix == b + suffix
    ensures a == b
  {
    assert |a + suffix| == |b + suffix|;
    SameLengthSplit(a, suffix, b, suffix);
  }

  /** Different keys of one cluster print differently. */
  lemma PrintInjective(a: Key, b: Key)
    requires a.id.cluster == b.id.cluster && KeyInRange(a) && KeyInRange(b) && Print(a) == Print(b)
    ensures a == b
  {
    PrintStartsWithNamespace(a);
    PrintStartsWithNamespace(b);
    NamespaceOfKey(a.id, b.id, Print(a));
    PrintParts(a);
    PrintParts(b);
    SameLengthSplit(Namespace(a.id), Rest(a), Namespace(b.id), Rest(b));
    RestTellsKind(a, b);
    if a.SegmentKey? {
      SameLengthSplit(SEGMENTS, SegmentBody(a.start, a.end) + QLOG, SEGMENTS, SegmentBody(b.start, b.end) + QLOG);
      DropSuffix(SegmentBody(a.start, a.end), SegmentBody(b.start, b.end), QLOG);
      SegmentBodyInjective(a.start, a.end, b.start, b.end);
    } else if a.SnapshotKey? {
      var x, y := SnapshotBody(a.index, a.hash, a.digest, a.fingerprint),
                  SnapshotBody(b.index, b.hash, b.digest, b.fingerprint);
      SameLengthSplit(SNAPSHOTS, x + SNAPSHOT, SNAPSHOTS, y + SNAPSHOT);
      DropSuffix(x, y, SNAPSHOT);
      SnapshotBodyInjective(a.index, a.hash, a.digest, a.fingerprint, b.index, b.hash, b.digest, b.fingerprint);
    }
  }

  // ---------------------------------------------------------------- bookkeeping keys

  /** Hashes are printed as 64 hexadecimal digits. */
  predicate GcKeyInRange(key: GcKey) {
    match key
    case ControlKey => true
    case PlanKey(h) => AllHex(h)
    case EvidenceKey(h, o) => AllHex(h) && AllHex(o)
    case ReportKey(h) => AllHex(h)
  }

  /** What follows the collector's prefix. */
  function GcRest(key: GcKey): string {
    match key
    case ControlKey => "/control" + JSON
    case PlanKey(h) => "/plans/" + (h + JSON)
    case EvidenceKey(h, o) => "/evidence/" + (h + ("/" + (o + JSON)))
    case ReportKey(h) => "/reports/" + (h + JSON)
  }

  lemma GcParts(cluster: string, key: GcKey)
    ensures PrintGc(cluster, key) == ("rhiza/" + cluster + "/gc") + GcRest(key)
  {
  }

  /** Control, plans, evidence and reports of one cluster never share a key. */
  lemma PrintGcInjective(cluster: string, a: GcKey, b: GcKey)
    requires GcKeyInRange(a) && GcKeyInRange(b) && PrintGc(cluster, a) == PrintGc(cluster, b)
    ensures a == b
  {
    GcParts(cluster, a);
    GcParts(cluster, b);
    var prefix := "rhiza/" + cluster + "/gc";
    SameLengthSplit(prefix, GcRest(a), prefix, GcRest(b));
    GcRestInjective(a, b);
  }

  lemma GcRestInjective(a: GcKey, b: GcKey)
    requires GcKeyInRange(a) && GcKeyInRange(b) && GcRest(a) == GcRest(b)
    ensures a == b
  {
    assert |GcRest(a)| == |GcRest(b)|;
    match a
    case ControlKey =>
    case PlanKey(h) =>
      SameLengthSplit("/plans/", h + JSON, "/plans/", b.planHash + JSON);
      DropSuffix(h, b.planHash, JSON);
    case EvidenceKey(h, o) =>
      SameLengthSplit("/evidence/", h + ("/" + (o + JSON)), "/evidence/", b.planHash + ("/" + (b.name + JSON)));
      SameLengthSplit(h, "/" + (o + JSON), b.planHash, "/" + (b.name + JSON));
      SameLengthSplit("/", o + JSON, "/", b.name + JSON);
      DropSuffix(o, b.name, JSON);
    case ReportKey(h) =>
      SameLengthSplit("/reports/", h + JSON, "/reports/", b.planHash + JSON);
      DropSuffix(h, b.planHash, JSON);
  }

  /** The character that tells the areas of a cluster apart. */
  lemma CheckpointArea(key: Key)
    ensures var at := |"rhiza/" + key.id.cluster| + 1; |Print(key)| > at && Print(key)[at] == 'c'
  {
    PrintStartsWithNamespace(key);
    var root := "rhiza/" + key.id.cluster;
    var front := root + "/checkpoints/epoch-";
    assert front[|root| + 1] == 'c';
    assert Namespace(key.id) == front + Coordinates(key.id);
    assert Print(key)[|root| + 1] == Print(key)[..|Namespace(key.id)|][|root| + 1];
  }

  lemma GcArea(cluster: string, gc: GcKey)
    ensures var at := |"rhiza/" + cluster| + 1; |PrintGc(cluster, gc)| > at && PrintGc(cluster, gc)[at] == 'g'
  {
    GcParts(cluster, gc);
    var root := "rhiza/" + cluster;
    assert (root + "/gc")[|root| + 1] == 'g';
  }

  /** Nor do they share a key with a checkpoint's objects. */
  lemma BookkeepingIsApart(key: Key, gc: GcKey)
    ensures Print(key) != PrintGc(key.id.cluster, gc)
  {
    CheckpointArea(key);
    GcArea(key.id.cluster, gc);
  }

  /** The recognisers accept more than is ever printed: the suffix may be repeated. */
  lemma RecognisedButNotPrinted(id: Identity, start: nat, end: nat)
    ensures var key := Namespace(id) + SEGMENTS + (SegmentBody(start, end) + Repeat(QLOG, 2));
            IsKnown(id, key) && forall a: nat, b: nat :: key != Print(SegmentKey(id, a, b))
  {
    var name := SegmentBody(start, end) + Repeat(QLOG, 2);
    var key := Namespace(id) + SEGMENTS + name;
    SegmentNameRecognised(Decimal(start), Decimal(end), 2);
    assert key[|Namespace(id) + SEGMENTS|..] == name;
    assert Repeat(QLOG, 1) == QLOG && |Repeat(QLOG, 2)| == 10;
    forall a: nat, b: nat ensures key != Print(SegmentKey(id, a, b)) {
      assert |Print(SegmentKey(id, a, b))| == |Namespace(id)| + |SEGMENTS| + 46;
    }
  }
}
