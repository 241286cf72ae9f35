/** The length-prefixed frame code of ipc/src/framing.cpp, and the stream decoder that both
    receive loops are measured against. */
module Framing {
  import opened Prelude

  const HEADER_SIZE := 4
  const MAX_PAYLOAD_SIZE := 1024 * 1024

  datatype DecodeStatus = Incomplete | Complete | InvalidLength

  datatype DecodeResult = DecodeResult(status: DecodeStatus, consumed: nat, payload: seq<Byte>)

  predicate Legal(payload: seq<Byte>) {
    0 < |payload| <= MAX_PAYLOAD_SIZE
  }

  predicate AllLegal(payloads: seq<seq<Byte>>) {
    forall i :: 0 <= i < |payloads| ==> Legal(payloads[i])
  }

  function Header(size: UInt32): (h: seq<Byte>)
    ensures |h| == HEADER_SIZE
  {
    [size % 0x100, size / 0x100 % 0x100, size / 0x1_0000 % 0x100, size / 0x100_0000 % 0x100]
  }

  function HeaderValue(b: seq<Byte>): UInt32
    requires |b| >= HEADER_SIZE
  {
    b[0] as int + b[1] as int * 0x100 + b[2] as int * 0x1_0000 + b[3] as int * 0x100_0000
  }

  /** The bytes of one frame. */
  function Frame(payload: seq<Byte>): seq<Byte>
    requires Legal(payload)
  {
    Header(|payload|) + payload
  }

  /** `encode_frame`: the four header bytes are stored one by one, then both parts appended. */
  method EncodeFrame(payload: seq<Byte>) returns (frame: Option<seq<Byte>>)
    ensures frame.Some? <==> 1 <= |payload| <= 0x10_0000
    ensures frame.Some? ==>
      var n := |payload|;
      frame.value == [n % 0x100, n / 0x100 % 0x100, n / 0x1_0000 % 0x100, n / 0x100_0000 % 0x100] + payload
    ensures frame.Some? ==> |frame.value| == HEADER_SIZE + |payload| && frame.value == Frame(payload)
    ensures frame.Some? ==>
      forall tail: seq<Byte> :: TryDecodeFrame(frame.value + tail) == DecodeResult(Complete, |frame.value|, payload)
  {
    hide TryDecodeFrame;
    if payload == [] || |payload| > MAX_PAYLOAD_SIZE {
      return None;
    }
    var size := |payload|;
    var header := new Byte[HEADER_SIZE](_ => 0);
    header[0] := size % 0x100;
    header[1] := size / 0x100 % 0x100;
    header[2] := size / 0x1_0000 % 0x100;
    header[3] := size / 0x100_0000 % 0x100;
    var result := [];
    result := result + header[..];
    result := result + payload;
    assert result == Frame(payload);
    forall tail: seq<Byte> ensures TryDecodeFrame(result + tail) == DecodeResult(Complete, |result|, payload) {
      DecodeOfFrame(payload, tail);
    }
    frame := Some(result);
  }

  lemma HeaderOfValue(b: seq<Byte>)
    requires |b| == HEADER_SIZE
    ensures Header(HeaderValue(b)) == b
  {
    var high: int := b[2] as int + b[3] as int * 0x100;
    var middle: int := b[1] as int + high * 0x100;
    var size := HeaderValue(b);
    LowByte(b[0], middle, size);
    LowByte(b[1], high, middle);
    LowByte(b[2], b[3], high);
    DividedTwice(size);
    assert size / 0x1_0000 == high && size / 0x100_0000 == b[3];
  }

  lemma LowByte(low: Byte, rest: nat, n: nat)
    requires n == low as int + rest * 0x100
    ensures n % 0x100 == low && n / 0x100 == rest
  {
  }

  lemma DividedTwice(n: nat)
    ensures n / 0x1_0000 == n / 0x100 / 0x100 && n / 0x100_0000 == n / 0x1_0000 / 0x100
  {
  }

  function TryDecodeFrame(buffer: seq<Byte>): (r: DecodeResult)
    ensures r.status == Complete ==>
      && HEADER_SIZE < r.consumed <= |buffer| && Legal(r.payload)
      && buffer == Frame(r.payload) + buffer[r.consumed..]
    ensures r.status == Incomplete ==> |buffer| < HEADER_SIZE + MAX_PAYLOAD_SIZE
  {
    if |buffer| < HEADER_SIZE then
      DecodeResult(Incomplete, 0, [])
    else
      var size := HeaderValue(buffer);
      if size == 0 || size > MAX_PAYLOAD_SIZE then
        DecodeResult(InvalidLength, 0, [])
      else if |buffer| < HEADER_SIZE + size then
        DecodeResult(Incomplete, 0, [])
      else
        HeaderOfValue(buffer[..HEADER_SIZE]);
        DecodeResult(Complete, HEADER_SIZE + size, buffer[HEADER_SIZE..HEADER_SIZE + size])
  }

  lemma EmptyIsIncomplete()
    ensures TryDecodeFrame([]).status == Incomplete
  {
  }

  lemma HeaderRoundTrip(size: UInt32, tail: seq<Byte>)
    ensures HeaderValue(Header(size) + tail) == size
  {
    var (second, third, fourth) := (size / 0x100, size / 0x1_0000, size / 0x100_0000);
    DividedTwice(size);
    Divided(size, second);
    Divided(second, third);
    Divided(third, fourth);
    assert fourth < 0x100 && fourth % 0x100 == fourth;
    BytesOf(size % 0x100, second % 0x100, third % 0x100, fourth, second, third, tail);
  }

  lemma Divided(n: nat, q: nat)
    requires q == n / 0x100
    ensures n == n % 0x100 + q * 0x100
  {
  }

  lemma BytesOf(a: Byte, b: Byte, c: Byte, d: Byte, second: nat, third: nat, tail: seq<Byte>)
    requires second == b as int + third * 0x100 && third == c as int + d * 0x100
    ensures HeaderValue([a, b, c, d] + tail) == a as int + second * 0x100
  {
  }

  /** A frame is recognised at the head of any longer buffer. */
  lemma DecodeOfFrame(payload: seq<Byte>, tail: seq<Byte>)
    requires Legal(payload)
    ensures TryDecodeFrame(Frame(payload) + tail) == DecodeResult(Complete, |Frame(payload)|, payload)
  {
    assert Frame(payload) + tail == Header(|payload|) + (payload + tail);
    HeaderRoundTrip(|payload|, payload + tail);
  }

  /** Complete and InvalidLength never change when bytes are appended. */
  lemma VerdictStable(b: seq<Byte>, tail: seq<Byte>)
    requires TryDecodeFrame(b).status != Incomplete
    ensures TryDecodeFrame(b + tail) == TryDecodeFrame(b)
  {
    assert HeaderValue(b + tail) == HeaderValue(b);
  }

  /** What a three-byte buffer already says about the length. */
  function PartialLength(b: seq<Byte>): nat
    requires |b| == 3
  {
    b[0] as int + b[1] as int * 0x100 + b[2] as int * 0x1_0000
  }

  ghost predicate ProperFramePrefix(b: seq<Byte>) {
    exists payload: seq<Byte> :: Legal(payload) && b < Frame(payload)
  }

  lemma Extend(b: seq<Byte>, header: seq<Byte>)
    requires |header| == HEADER_SIZE && 0 < HeaderValue(header) <= MAX_PAYLOAD_SIZE
    requires b[..Min(|b|, HEADER_SIZE)] == header[..Min(|b|, HEADER_SIZE)]
    requires |b| < HEADER_SIZE + HeaderValue(header)
    ensures ProperFramePrefix(b)
  {
    HeaderOfValue(header);
    var body := if |b| >= HEADER_SIZE then b[HEADER_SIZE..] else [];
    var payload := body + seq(HeaderValue(header) - |body|, _ => 0);
    assert b < Frame(payload);
  }

  lemma PrefixIsIncomplete(b: seq<Byte>, payload: seq<Byte>)
    requires Legal(payload) && b < Frame(payload)
    ensures TryDecodeFrame(b).status == Incomplete
    ensures |b| == 3 ==> 0 < PartialLength(b) <= MAX_PAYLOAD_SIZE
  {
    var size := |payload|;
    assert b == Frame(payload)[..|b|];
    if |b| >= HEADER_SIZE {
      assert b[..HEADER_SIZE] == Header(size);
      HeaderRoundTrip(size, b[HEADER_SIZE..]);
      assert b == Header(size) + b[HEADER_SIZE..];
    } else if |b| == 3 {
      assert b == Header(size)[..3];
      assert Header(size) + [] == Header(size);
      HeaderRoundTrip(size, []);
      assert size / 0x100_0000 == 0;
    }
  }

  /** Fills up a partial header so that it names a legal length. */
  function Completed(b: seq<Byte>): (h: seq<Byte>)
    requires |b| < HEADER_SIZE
    requires |b| == 3 ==> 0 < PartialLength(b) <= MAX_PAYLOAD_SIZE
    ensures |h| == HEADER_SIZE && h[..|b|] == b && 0 < HeaderValue(h) <= MAX_PAYLOAD_SIZE
  {
    match |b|
    case 0 => [1, 0, 0, 0]
    case 1 => [b[0], 1, 0, 0]
    case 2 => [b[0], b[1], 1, 0]
    case _ => [b[0], b[1], b[2], 0]
  }

  lemma IncompleteExtends(b: seq<Byte>)
    requires TryDecodeFrame(b).status == Incomplete
    requires |b| == 3 ==> 0 < PartialLength(b) <= MAX_PAYLOAD_SIZE
    ensures ProperFramePrefix(b)
  {
    if |b| >= HEADER_SIZE {
      assert HeaderValue(b[..HEADER_SIZE]) == HeaderValue(b);
      Extend(b, b[..HEADER_SIZE]);
    } else {
      Extend(b, Completed(b));
    }
  }

  /** A buffer is left waiting exactly when some legal frame starts with it, with one family of
      exceptions: three header bytes that already rule out every legal length are still kept, and
      rejected only when the fourth arrives. */
  lemma IncompleteMeansFramePrefix(b: seq<Byte>)
    ensures ProperFramePrefix(b) <==>
      && TryDecodeFrame(b).status == Incomplete
      && (|b| == 3 ==> 0 < PartialLength(b) <= MAX_PAYLOAD_SIZE)
  {
    if ProperFramePrefix(b) {
      var payload: seq<Byte> :| Legal(payload) && b < Frame(payload);
      PrefixIsIncomplete(b, payload);
    } else if TryDecodeFrame(b).status == Incomplete && (|b| == 3 ==> 0 < PartialLength(b) <= MAX_PAYLOAD_SIZE) {
      IncompleteExtends(b);
    }
  }

  /** Such a buffer: three zero bytes start no legal frame and are left waiting all the same, to be
      rejected with whatever byte comes fourth. */
  lemma ThreeZeroBytesWait(fourth: Byte)
    ensures TryDecodeFrame([0, 0, 0]).status == Incomplete && !ProperFramePrefix([0, 0, 0])
    ensures TryDecodeFrame([0, 0, 0, fourth]).status == InvalidLength
  {
    IncompleteMeansFramePrefix([0, 0, 0]);
    assert HeaderValue([0, 0, 0, fourth]) == fourth * 0x100_0000;
  }

  // ----- the stream decoder -----

  datatype Decoded = Decoded(payloads: seq<seq<Byte>>, rest: seq<Byte>, invalid: bool)

  /** Everything a byte stream says, read in one piece. */
  function DecodeStream(b: seq<Byte>): (d: Decoded)
    ensures AllLegal(d.payloads)
    ensures TryDecodeFrame(d.rest).status == if d.invalid then InvalidLength else Incomplete
    decreases |b|
  {
    var r := TryDecodeFrame(b);
    match r.status
    case Incomplete => Decoded([], b, false)
    case InvalidLength => Decoded([], b, true)
    case Complete =>
      var d := DecodeStream(b[r.consumed..]);
      Decoded([r.payload] + d.payloads, d.rest, d.invalid)
  }

  function EncodeAll(payloads: seq<seq<Byte>>): seq<Byte>
    requires AllLegal(payloads)
  {
    if payloads == [] then [] else Frame(payloads[0]) + EncodeAll(payloads[1..])
  }

  lemma EncodeOne(p: seq<Byte>)
    requires Legal(p)
    ensures EncodeAll([p]) == Frame(p)
  {
    assert EncodeAll([p][1..]) == [];
  }

  lemma EncodeAllCons(p: seq<Byte>, ps: seq<seq<Byte>>, tail: seq<Byte>)
    requires Legal(p) && AllLegal(ps)
    ensures EncodeAll([p] + ps) + tail == Frame(p) + (EncodeAll(ps) + tail)
  {
    assert ([p] + ps)[1..] == ps;
  }

  /** No byte is invented or dropped: the stream is the frames of its payloads and the rest. */
  lemma {:induction false} DecodeStreamSound(b: seq<Byte>)
    ensures b == EncodeAll(DecodeStream(b).payloads) + DecodeStream(b).rest
    decreases |b|
  {
    hide TryDecodeFrame, Frame;
    var r := TryDecodeFrame(b);
    if r.status == Complete {
      var d := DecodeStream(b[r.consumed..]);
      DecodeStreamSound(b[r.consumed..]);
      EncodeAllCons(r.payload, d.payloads, d.rest);
    }
  }

  lemma {:induction false} EncodeAllSplit(ps: seq<seq<Byte>>, qs: seq<seq<Byte>>)
    requires AllLegal(ps) && AllLegal(qs)
    ensures AllLegal(ps + qs) && EncodeAll(ps + qs) == EncodeAll(ps) + EncodeAll(qs)
    decreases |ps|
  {
    hide Frame, Legal;
    if ps == [] {
      assert ps + qs == qs;
    } else {
      assert (ps + qs)[1..] == ps[1..] + qs;
      EncodeAllSplit(ps[1..], qs);
    }
  }

  /** Decoding inverts encoding, whatever undecodable bytes follow. */
  lemma {:induction false} StreamRoundTrip(ps: seq<seq<Byte>>, rest: seq<Byte>)
    requires AllLegal(ps) && TryDecodeFrame(rest).status != Complete
    ensures DecodeStream(EncodeAll(ps) + rest)
         == Decoded(ps, rest, TryDecodeFrame(rest).status == InvalidLength)
  {
    hide TryDecodeFrame, Frame;
    if ps == [] {
      assert EncodeAll(ps) + rest == rest;
    } else {
      var tail := EncodeAll(ps[1..]) + rest;
      assert EncodeAll(ps) + rest == Frame(ps[0]) + tail;
      DecodeOfFrame(ps[0], tail);
      assert (EncodeAll(ps) + rest)[|Frame(ps[0])|..] == tail;
      StreamRoundTrip(ps[1..], rest);
    }
  }

  /** The head of a prefix of legal frames: it is never rejected, and when it decodes, it decodes
      to the first payload and leaves a prefix of the others. */
  lemma HeadOfPrefix(ps: seq<seq<Byte>>, b: seq<Byte>)
    requires AllLegal(ps) && b <= EncodeAll(ps)
    ensures TryDecodeFrame(b).status != InvalidLength
    ensures TryDecodeFrame(b).status == Complete ==>
      ps != [] && TryDecodeFrame(b).payload == ps[0] && b[TryDecodeFrame(b).consumed..] <= EncodeAll(ps[1..])
  {
    var r := TryDecodeFrame(b);
    if r.status != Incomplete {
      var tail := EncodeAll(ps)[|b|..];
      assert b + tail == EncodeAll(ps);
      VerdictStable(b, tail);
      DecodeOfFrame(ps[0], EncodeAll(ps[1..]));
      assert EncodeAll(ps)[r.consumed..] == EncodeAll(ps[1..]);
    }
  }

  lemma IncompleteHead(ps: seq<seq<Byte>>, b: seq<Byte>)
    requires AllLegal(ps) && b <= EncodeAll(ps) && b != [] && TryDecodeFrame(b).status == Incomplete
    ensures ps != [] && b < Frame(ps[0])
  {
    hide TryDecodeFrame, Frame;
    var head := Frame(ps[0]);
    if |b| >= |head| {
      assert b == head + b[|head|..];
      DecodeOfFrame(ps[0], b[|head|..]);
    }
  }

  /** A cut anywhere in a sequence of frames shows a prefix of the payloads and leaves less than
      one frame of the next payload. */
  lemma {:induction false} PrefixOfStream(ps: seq<seq<Byte>>, cut: nat)
    requires AllLegal(ps) && cut <= |EncodeAll(ps)|
    ensures var d := DecodeStream(EncodeAll(ps)[..cut]);
      && !d.invalid && d.payloads <= ps
      && (d.rest == [] || (|d.payloads| < |ps| && d.rest < Frame(ps[|d.payloads|])))
  {
    hide TryDecodeFrame, Frame;
    var b := EncodeAll(ps)[..cut];
    HeadOfPrefix(ps, b);
    var r := TryDecodeFrame(b);
    if r.status == Complete {
      var rest := b[r.consumed..];
      assert rest == EncodeAll(ps[1..])[..|rest|];
      PrefixOfStream(ps[1..], |rest|);
    } else if b != [] {
      IncompleteHead(ps, b);
    }
  }

  /** Unique parsing: one frame sequence is a prefix of another only when the payloads are. */
  lemma UniqueParsing(ps: seq<seq<Byte>>, qs: seq<seq<Byte>>)
    requires AllLegal(ps) && AllLegal(qs) && EncodeAll(ps) <= EncodeAll(qs)
    ensures ps <= qs
  {
    StreamRoundTrip(ps, []);
    assert EncodeAll(ps) + [] == EncodeAll(ps) == EncodeAll(qs)[..|EncodeAll(ps)|];
    PrefixOfStream(qs, |EncodeAll(ps)|);
  }
}
