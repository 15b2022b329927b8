/**
 The transport benchmark's work partition and its length-prefixed frames.
 */
module Transport {
  import opened Model

  // ---------------------------------------------------------------- partition

  /** How many operations a worker performs. */
  function WorkerCount(total: nat, concurrency: nat, worker: nat): nat
    requires concurrency > 0
  {
    total / concurrency + (if worker < total % concurrency then 1 else 0)
  }

  /** The global number of a worker's operation. */
  function Sequence(concurrency: nat, worker: nat, local: nat): nat {
    local * concurrency + worker
  }

  /** The worker and the local number behind a global number. */
  function Owner(concurrency: nat, n: nat): (nat, nat)
    requires concurrency > 0
  {
    (n % concurrency, n / concurrency)
  }

  lemma {:induction false} MultiplesAreApart(a: nat, b: nat, c: nat)
    ensures a < b ==> a * c + c <= b * c
  {
    if a < b {
      MultiplesAreApart(a, b - 1, c);
      assert b * c == (b - 1) * c + c;
    }
  }

  /** A number is a multiple plus a remainder in one way only. */
  lemma QuotientIsUnique(c: nat, q: nat, r: nat, l: nat, w: nat)
    requires r < c && w < c && q * c + r == l * c + w
    ensures q == l && r == w
  {
    MultiplesAreApart(q, l, c);
    MultiplesAreApart(l, q, c);
  }

  lemma Divide(n: nat, c: nat)
    requires c > 0
    ensures n == (n / c) * c + n % c && n % c < c
  {
  }

  /** The partition is a bijection between the workers' shares and the numbers below the total: `Sequence` and
      `Owner` undo each other, and a worker's operation is in its share exactly when its number is below the
      total. */
  lemma PartitionIsBijection(total: nat, concurrency: nat, worker: nat, local: nat, n: nat)
    requires worker < concurrency
    ensures Owner(concurrency, Sequence(concurrency, worker, local)) == (worker, local)
    ensures Sequence(concurrency, Owner(concurrency, n).0, Owner(concurrency, n).1) == n
            && Owner(concurrency, n).0 < concurrency
    ensures local < WorkerCount(total, concurrency, worker) <==> Sequence(concurrency, worker, local) < total
  {
    var s := Sequence(concurrency, worker, local);
    Divide(s, concurrency);
    QuotientIsUnique(concurrency, s / concurrency, s % concurrency, local, worker);
    Divide(n, concurrency);
    ShareExactly(total, concurrency, worker, local);
  }

  lemma ShareExactly(total: nat, concurrency: nat, worker: nat, local: nat)
    requires worker < concurrency
    ensures local < WorkerCount(total, concurrency, worker) <==> Sequence(concurrency, worker, local) < total
  {
    Divide(total, concurrency);
    MultiplesAreApart(local, total / concurrency, concurrency);
    MultiplesAreApart(total / concurrency, local, concurrency);
  }

  // ---------------------------------------------------------------- frames

  type Byte = b: nat | b < 256

  const MAX_FRAME: nat := 1024 * 1024

  /** Four bytes, most significant first. */
  function ToBigEndian(n: nat): (b: seq<Byte>)
    requires n < 0x1_0000_0000
    ensures |b| == 4
  {
    [n / 0x100_0000, n / 0x1_0000 % 0x100, n / 0x100 % 0x100, n % 0x100]
  }

  function FromBigEndian(b: seq<Byte>): nat
    requires |b| == 4
  {
    ((b[0] as nat * 0x100 + b[1] as nat) * 0x100 + b[2] as nat) * 0x100 + b[3] as nat
  }

  lemma BigEndianRoundTrip(n: nat)
    requires n < 0x1_0000_0000
    ensures FromBigEndian(ToBigEndian(n)) == n
  {
  }

  lemma BigEndianOnto(b: seq<Byte>)
    requires |b| == 4
    ensures FromBigEndian(b) < 0x1_0000_0000 && ToBigEndian(FromBigEndian(b)) == b
  {
    var n2 := b[0] as nat * 0x100 + b[1] as nat;
    var n3 := n2 * 0x100 + b[2] as nat;
    var n := n3 * 0x100 + b[3] as nat;
    assert n / 0x100 == n3 && n % 0x100 == b[3];
    assert n3 / 0x100 == n2 && n3 % 0x100 == b[2];
    assert n / 0x1_0000 == n2 && n2 / 0x100 == b[0] && n2 % 0x100 == b[1];
    assert n / 0x100_0000 == b[0];
  }

  /** A payload with its length in front; None when it is too long. */
  function Framed(payload: seq<Byte>): Option<seq<Byte>> {
    if |payload| > MAX_FRAME then None else Some(ToBigEndian(|payload|) + payload)
  }

  datatype Decoded = End | Frame(payload: seq<Byte>, rest: seq<Byte>) | Broken

  /** What reading one frame from the front of a stream yields.  A stream that ends inside the length counts
      as ended; one that ends inside the payload, or announces too long a payload, is broken. */
  function Decode(s: seq<Byte>): Decoded {
    if |s| < 4 then End
    else
      var length := FromBigEndian(s[..4]);
      if length > MAX_FRAME || |s| - 4 < length then Broken
      else Frame(s[4..4 + length], s[4 + length..])
  }

  /** The reader accepts exactly what the writer writes: a stream yields a payload if and only if it begins
      with that payload framed. */
  lemma DecodeExactly(s: seq<Byte>, payload: seq<Byte>, rest: seq<Byte>)
    ensures Decode(s) == Frame(payload, rest) <==> Framed(payload).Some? && s == Framed(payload).value + rest
  {
    if Decode(s) == Frame(payload, rest) {
      BigEndianOnto(s[..4]);
      assert s == s[..4] + s[4..4 + |payload|] + s[4 + |payload|..];
    }
    if Framed(payload).Some? && s == Framed(payload).value + rest {
      BigEndianRoundTrip(|payload|);
      assert s[..4] == ToBigEndian(|payload|);
      assert s[4..4 + |payload|] == payload && s[4 + |payload|..] == rest;
    }
  }

  predicate AllFit(payloads: seq<seq<Byte>>) {
    forall i :: 0 <= i < |payloads| ==> |payloads[i]| <= MAX_FRAME
  }

  /** Frames one after the other. */
  function EncodeAll(payloads: seq<seq<Byte>>): seq<Byte>
    requires AllFit(payloads)
  {
    if payloads == [] then [] else Framed(payloads[0]).value + EncodeAll(payloads[1..])
  }

  /** Reads frames until the stream ends or breaks. */
  function DecodeAll(s: seq<Byte>): (seq<seq<Byte>>, bool)
    decreases |s|
  {
    match Decode(s)
    case End => ([], true)
    case Broken => ([], false)
    case Frame(payload, rest) =>
      var (more, clean) := DecodeAll(rest);
      ([payload] + more, clean)
  }

  /** Reading a stream ends cleanly with these payloads exactly when the stream is these payloads framed,
      followed by fewer than four stray bytes. */
  lemma {:induction false} DecodeAllExactly(s: seq<Byte>, payloads: seq<seq<Byte>>)
    ensures DecodeAll(s) == (payloads, true) <==>
            AllFit(payloads) && exists tail: seq<Byte> :: |tail| < 4 && s == EncodeAll(payloads) + tail
    decreases |s|
  {
    if DecodeAll(s) == (payloads, true) {
      DecodedWasEncoded(s, payloads);
    }
    if AllFit(payloads) && exists tail: seq<Byte> :: |tail| < 4 && s == EncodeAll(payloads) + tail {
      var tail: seq<Byte> :| |tail| < 4 && s == EncodeAll(payloads) + tail;
      EncodedDecodes(payloads, tail);
    }
  }

  lemma {:induction false} DecodedWasEncoded(s: seq<Byte>, payloads: seq<seq<Byte>>)
    requires DecodeAll(s) == (payloads, true)
    ensures AllFit(payloads) && exists tail: seq<Byte> :: |tail| < 4 && s == EncodeAll(payloads) + tail
    decreases |s|
  {
    match Decode(s)
    case End => assert s == EncodeAll([]) + s;
    case Frame(payload, rest) =>
      DecodeExactly(s, payload, rest);
      DecodedWasEncoded(rest, payloads[1..]);
      var tail: seq<Byte> :| |tail| < 4 && rest == EncodeAll(payloads[1..]) + tail;
      assert s == EncodeAll(payloads) + tail;
  }

  /** Any payloads within the limit, framed and concatenated, read back as the same list and then the end. */
  lemma {:induction false} EncodedDecodes(payloads: seq<seq<Byte>>, tail: seq<Byte>)
    requires AllFit(payloads) && |tail| < 4
    ensures DecodeAll(EncodeAll(payloads) + tail) == (payloads, true)
  {
    if payloads == [] {
      assert EncodeAll(payloads) + tail == tail;
    } else {
      var rest := EncodeAll(payloads[1..]) + tail;
      assert EncodeAll(payloads) + tail == Framed(payloads[0]).value + rest;
      DecodeExactly(EncodeAll(payloads) + tail, payloads[0], rest);
      EncodedDecodes(payloads[1..], tail);
      assert payloads == [payloads[0]] + payloads[1..];
    }
  }

  /** The receiving end of a connection. */
  class Reader {
    var unread: seq<Byte>

    constructor (bytes: seq<Byte>)
      ensures unread == bytes
    {
      unread := bytes;
    }

    /** Fills a buffer of n bytes; at a premature end what is left is lost. */
    method ReadExact(n: nat) returns (buffer: Option<seq<Byte>>)
      modifies this
      ensures buffer == if n <= |old(unread)| then Some(old(unread)[..n]) else None
      ensures unread == if n <= |old(unread)| then old(unread)[n..] else []
    {
      if n <= |unread| {
        buffer, unread := Some(unread[..n]), unread[n..];
      } else {
        buffer, unread := None, [];
      }
    }

    method ReadFrame() returns (r: Result<Option<seq<Byte>>>)
      modifies this
      ensures match Decode(old(unread))
              case End => r == Ok(None) && unread == []
              case Broken => r.Err?
              case Frame(payload, rest) => r == Ok(Some(payload)) && unread == rest
    {
      var header := ReadExact(4);
      if header.None? { return Ok(None); }
      var length := FromBigEndian(header.value);
      if length > MAX_FRAME { return Err(SizeMismatch); }
      var frame := ReadExact(length);
      if frame.None? { return Err(NotFound); }
      assert old(unread)[4..][..length] == old(unread)[4..4 + length];
      assert old(unread)[4..][length..] == old(unread)[4 + length..];
      return Ok(Some(frame.value));
    }

    /** Reads frames until the stream ends or breaks. */
    method ReadAll() returns (payloads: seq<seq<Byte>>, clean: bool)
      modifies this
      ensures (payloads, clean) == DecodeAll(old(unread))
    {
      payloads := [];
      ghost var start := unread;
      assert payloads + DecodeAll(start).0 == DecodeAll(start).0;
      while true
        invariant DecodeAll(start) == (payloads + DecodeAll(unread).0, DecodeAll(unread).1)
        decreases |unread|
      {
        ghost var before := unread;
        var r := ReadFrame();
        assert payloads + [] == payloads;
        if r.Err? { return payloads, false; }
        if r.value.None? { return payloads, true; }
        assert payloads + DecodeAll(before).0 == (payloads + [r.value.value]) + DecodeAll(unread).0;
        payloads := payloads + [r.value.value];
      }
    }
  }
}
