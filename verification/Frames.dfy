/** The length-prefixed frames of presidium-network/src/codec.rs. */
module Frames {
  import opened Results
  import opened Terms

  const MAX_FRAME_SIZE: nat := 16 * 1024 * 1024
  const U32_SIZE: nat := 0x1_0000_0000

  datatype IoError = UnexpectedEof | FrameTooLarge

  /** `u32::to_be_bytes` after the narrowing cast of a length. */
  function BigEndian32(length: nat): (b: Bytes)
    ensures |b| == 4
  {
    var n := length % U32_SIZE;
    var high := n / 256;
    var higher := high / 256;
    [higher / 256, higher % 256, high % 256, n % 256]
  }

  function FromBigEndian32(b: Bytes): nat
    requires |b| == 4
  {
    var b0: int, b1: int, b2: int, b3: int := b[0], b[1], b[2], b[3];
    ((b0 * 256 + b1) * 256 + b2) * 256 + b3
  }

  lemma Split256(high: nat, low: nat)
    requires low < 256
    ensures (high * 256 + low) / 256 == high && (high * 256 + low) % 256 == low
  {
  }

  lemma NumberRoundTrip(n: nat)
    requires n < U32_SIZE
    ensures FromBigEndian32(BigEndian32(n)) == n
  {
    var high := n / 256;
    var higher := high / 256;
    assert n == high * 256 + n % 256 && high == higher * 256 + high % 256;
    assert higher == higher / 256 * 256 + higher % 256;
  }

  lemma Digits(b0: nat, b1: nat, b2: nat, b3: nat)
    requires b0 < 256 && b1 < 256 && b2 < 256 && b3 < 256
    ensures var n := ((b0 * 256 + b1) * 256 + b2) * 256 + b3;
      && n < U32_SIZE
      && n % 256 == b3 && n / 256 % 256 == b2 && n / 256 / 256 % 256 == b1 && n / 256 / 256 / 256 == b0
  {
    var x1 := b0 * 256 + b1;
    var x2 := x1 * 256 + b2;
    Split256(x2, b3);
    Split256(x1, b2);
    Split256(b0, b1);
  }

  lemma DigitsOfNumber(n: nat)
    requires n < U32_SIZE
    ensures BigEndian32(n) == [n / 256 / 256 / 256, n / 256 / 256 % 256, n / 256 % 256, n % 256]
  {
    assert n % U32_SIZE == n;
  }

  lemma BytesRoundTrip(b: Bytes)
    requires |b| == 4
    ensures FromBigEndian32(b) < U32_SIZE && BigEndian32(FromBigEndian32(b)) == b
  {
    Digits(b[0], b[1], b[2], b[3]);
    DigitsOfNumber(FromBigEndian32(b));
  }

  /** The bytes a frame puts on the stream. */
  function Frame(payload: Bytes): Bytes {
    BigEndian32(|payload|) + payload
  }

  /** Reading one frame off the front of `data`: the verdict and what is left. A short read consumes
      everything there is. */
  function ParseFrame(data: Bytes): (Result<Bytes, IoError>, Bytes) {
    if |data| < 4 then (Failure(UnexpectedEof), [])
    else
      var length, rest := FromBigEndian32(data[..4]), data[4..];
      if length > MAX_FRAME_SIZE then (Failure(FrameTooLarge), rest)
      else if |rest| < length then (Failure(UnexpectedEof), [])
      else (Success(rest[..length]), rest[length..])
  }

  // ---------------------------------------------------------------- the stream

  class Stream {
    var incoming: Bytes
    var outgoing: Bytes
    var closed: bool

    constructor (data: Bytes)
      ensures incoming == data && outgoing == [] && !closed
    {
      incoming, outgoing, closed := data, [], false;
    }

    method ReadExact(n: nat) returns (result: Result<Bytes, IoError>)
      modifies `incoming
      ensures if |old(incoming)| < n then result == Failure(UnexpectedEof) && incoming == []
              else result == Success(old(incoming)[..n]) && incoming == old(incoming)[n..]
    {
      if |incoming| < n {
        incoming := [];
        return Failure(UnexpectedEof);
      }
      result := Success(incoming[..n]);
      incoming := incoming[n..];
    }

    method ReadFrame() returns (result: Result<Bytes, IoError>)
      modifies `incoming
      ensures (result, incoming) == ParseFrame(old(incoming))
    {
      var prefix := ReadExact(4);
      if prefix.Failure? {
        return Failure(prefix.error);
      }
      var length := FromBigEndian32(prefix.value);
      if length > MAX_FRAME_SIZE {
        return Failure(FrameTooLarge);
      }
      result := ReadExact(length);
    }

    method WriteFrame(payload: Bytes) returns (result: Result<(), IoError>)
      modifies `outgoing, `closed
      ensures if |payload| > MAX_FRAME_SIZE
              then result == Failure(FrameTooLarge) && outgoing == old(outgoing) && closed == old(closed)
              else result == Success(()) && outgoing == old(outgoing) + Frame(payload) && closed
    {
      if |payload| > MAX_FRAME_SIZE {
        return Failure(FrameTooLarge);
      }
      outgoing := outgoing + BigEndian32(|payload|);
      outgoing := outgoing + payload;
      closed := true;
      result := Success(());
    }
  }

  // ---------------------------------------------------------------- results

  lemma ParseFrameOf(payload: Bytes, suffix: Bytes)
    requires |payload| <= MAX_FRAME_SIZE
    ensures ParseFrame(Frame(payload) + suffix) == (Success(payload), suffix)
  {
    var input := Frame(payload) + suffix;
    NumberRoundTrip(|payload|);
    assert input[..4] == BigEndian32(|payload|);
    assert input[4..] == payload + suffix;
  }

  lemma FrameOfParsed(data: Bytes)
    requires ParseFrame(data).0.Success?
    ensures var (result, rest) := ParseFrame(data);
      |result.value| <= MAX_FRAME_SIZE && data == Frame(result.value) + rest
  {
    var (result, rest) := ParseFrame(data);
    BytesRoundTrip(data[..4]);
    assert data == data[..4] + data[4..] && data[4..] == result.value + rest;
  }

  /** Reading is the exact inverse of writing: a read succeeds if and only if the input begins with the
      frame of a payload within the limit, and then it returns that payload and leaves the rest. */
  lemma FrameRoundTrip(payload: Bytes, suffix: Bytes, data: Bytes)
    ensures |payload| <= MAX_FRAME_SIZE ==> ParseFrame(Frame(payload) + suffix) == (Success(payload), suffix)
    ensures var (result, rest) := ParseFrame(data);
      result.Success? ==> |result.value| <= MAX_FRAME_SIZE && data == Frame(result.value) + rest
  {
    if |payload| <= MAX_FRAME_SIZE {
      ParseFrameOf(payload, suffix);
    }
    if ParseFrame(data).0.Success? {
      FrameOfParsed(data);
    }
  }

  /** The order of the prefix is the order of the lengths: the first byte that differs decides, most significant
      first. */
  lemma BigEndianOrder(m: nat, n: nat, k: nat)
    requires m < U32_SIZE && n < U32_SIZE && k < 4
    requires BigEndian32(m)[..k] == BigEndian32(n)[..k] && BigEndian32(m)[k] < BigEndian32(n)[k]
    ensures m < n
  {
    var a, b := BigEndian32(m), BigEndian32(n);
    NumberRoundTrip(m);
    NumberRoundTrip(n);
    assert forall i :: 0 <= i < k ==> a[i] == a[..k][i] == b[..k][i] == b[i];
  }

  /** What the prefix of some bytes announces, if they have one. */
  predicate Announces(data: Bytes, n: nat) {
    n < U32_SIZE && BigEndian32(n) <= data
  }

  lemma AnnouncesOne(data: Bytes)
    requires |data| >= 4
    ensures Announces(data, FromBigEndian32(data[..4]))
    ensures forall n :: Announces(data, n) ==> n == FromBigEndian32(data[..4])
  {
    BytesRoundTrip(data[..4]);
    forall n | Announces(data, n)
      ensures n == FromBigEndian32(data[..4])
    {
      NumberRoundTrip(n);
      assert data[..4] == BigEndian32(n);
    }
  }

  /** Why a read fails: the input is too large a frame exactly when its prefix announces more than the limit,
      and it ends too early exactly when it has no whole prefix or is a proper prefix of the frame of some
      payload within the limit. */
  lemma FrameFailures(data: Bytes)
    ensures ParseFrame(data).0 == Failure(FrameTooLarge) <==> exists n :: n > MAX_FRAME_SIZE && Announces(data, n)
    ensures ParseFrame(data).0 == Failure(UnexpectedEof) <==>
      |data| < 4 || exists payload: Bytes :: |payload| <= MAX_FRAME_SIZE && data < Frame(payload)
  {
    if |data| >= 4 {
      AnnouncesOne(data);
      if ParseFrame(data).0 == Failure(UnexpectedEof) {
        BytesRoundTrip(data[..4]);
        var payload := EarlyEnd(data, FromBigEndian32(data[..4]));
      }
    }
    forall payload: Bytes | |payload| <= MAX_FRAME_SIZE && data < Frame(payload)
      ensures ParseFrame(data).0 == Failure(UnexpectedEof)
    {
      CutFrame(payload, data);
    }
  }

  lemma CutFrame(payload: Bytes, data: Bytes)
    requires |payload| <= MAX_FRAME_SIZE && data < Frame(payload)
    ensures ParseFrame(data).0 == Failure(UnexpectedEof)
  {
    if |data| >= 4 {
      NumberRoundTrip(|payload|);
      assert data[..4] == Frame(payload)[..4] == BigEndian32(|payload|);
    }
  }

  function Zeros(n: nat): Bytes {
    seq(n, i => 0)
  }

  lemma FrameOfRest(n: nat, prefix: Bytes, rest: Bytes, more: Bytes)
    requires BigEndian32(n) == prefix && n == |rest| + |more| && more != []
    ensures prefix + rest < Frame(rest + more)
  {
    assert Frame(rest + more) == prefix + rest + more;
  }

  lemma EarlyEnd(data: Bytes, n: nat) returns (payload: Bytes)
    requires |data| >= 4 && BigEndian32(n) == data[..4] && n <= MAX_FRAME_SIZE && |data| < 4 + n
    ensures |payload| <= MAX_FRAME_SIZE && data < Frame(payload)
  {
    var rest := data[4..];
    payload := rest + Zeros(n - |rest|);
    FrameOfRest(n, data[..4], rest, Zeros(n - |rest|));
    assert data == data[..4] + rest;
  }

  /** No valid frame is a proper prefix of another. */
  lemma FramesArePrefixFree(p: Bytes, q: Bytes)
    requires |p| <= MAX_FRAME_SIZE && |q| <= MAX_FRAME_SIZE && Frame(p) <= Frame(q)
    ensures p == q
  {
    var suffix := Frame(q)[|Frame(p)|..];
    assert Frame(p) + suffix == Frame(q) + [];
    FrameRoundTrip(p, suffix, []);
    FrameRoundTrip(q, [], []);
  }
}
