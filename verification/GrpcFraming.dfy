/** Length-prefixed gRPC messages (`src/protocols/grpc.rs`): a compression flag byte, a 32-bit
    big-endian length, then the payload ("gRPC over HTTP/2", section "Requests"). */
module GrpcFraming {
  type byte = b: int | 0 <= b < 256
  type bytes = seq<byte>

  const HEADER_LEN := 5
  const WIDTH := 0x1_0000_0000

  datatype Error =
    | TooShort(got: nat)
    | Compressed(flag: byte)
    | Truncated(declared: nat, got: nat)

  datatype Result<+T> = Ok(value: T) | Err(error: Error)

  // ----- header -----

  function BigEndian32(n: nat): (r: bytes)
    requires n < WIDTH
    ensures |r| == 4
  {
    [n / 0x100_0000, n / 0x1_0000 % 256, n / 0x100 % 256, n % 256]
  }

  function FromBigEndian32(b: bytes): (n: nat)
    requires |b| == 4
    ensures n < WIDTH
  {
    b[0] as int * 0x100_0000 + b[1] as int * 0x1_0000 + b[2] as int * 0x100 + b[3]
  }

  lemma BigEndianRoundTrip(n: nat)
    requires n < WIDTH
    ensures FromBigEndian32(BigEndian32(n)) == n
  {
    var q := n / 0x100;
    assert n == q * 0x100 + n % 256;
    var q2 := q / 0x100;
    assert q == q2 * 0x100 + q % 256 && q2 == n / 0x1_0000;
    assert q2 == q2 / 0x100 * 0x100 + q2 % 256 && q2 / 0x100 == n / 0x100_0000;
  }

  lemma BigEndianInjective(b: bytes)
    requires |b| == 4
    ensures BigEndian32(FromBigEndian32(b)) == b
  {
    var n := FromBigEndian32(b);
    assert n / 0x100 == b[0] as int * 0x1_0000 + b[1] as int * 0x100 + b[2] && n % 256 == b[3];
    assert n / 0x1_0000 == b[0] as int * 0x100 + b[1] && n / 0x100 % 256 == b[2];
    assert n / 0x100_0000 == b[0] && n / 0x1_0000 % 256 == b[1];
  }

  // ----- encoder and single-frame decoder -----

  /** `encode_grpc_frame`; the length is cast to 32 bits. */
  function Encode(payload: bytes): bytes {
    [0] + BigEndian32(|payload| % WIDTH) + payload
  }

  function DeclaredLength(data: bytes): (n: nat)
    requires |data| >= HEADER_LEN
    ensures n < WIDTH
  {
    FromBigEndian32(data[1..HEADER_LEN])
  }

  /** `decode_grpc_frame`: the payload of the first frame; bytes after it are ignored. */
  function DecodeFrame(data: bytes): Result<bytes> {
    if |data| < HEADER_LEN then Err(TooShort(|data|))
    else if data[0] != 0 then Err(Compressed(data[0]))
    else if |data| - HEADER_LEN < DeclaredLength(data) then Err(Truncated(DeclaredLength(data), |data| - HEADER_LEN))
    else Ok(data[HEADER_LEN..HEADER_LEN + DeclaredLength(data)])
  }

  // ----- multi-frame decoder -----

  /** Parses one frame after another; the error is that of the first malformed frame. */
  function Parse(data: bytes): (r: Result<seq<bytes>>)
    decreases |data|
  {
    if data == [] then Ok([])
    else
      match DecodeFrame(data)
      case Err(e) => Err(e)
      case Ok(payload) =>
        match Parse(data[HEADER_LEN + |payload|..])
        case Err(e) => Err(e)
        case Ok(rest) => Ok([payload] + rest)
  }

  function Flatten(ps: seq<bytes>): bytes {
    if ps == [] then [] else ps[0] + Flatten(ps[1..])
  }

  function EncodeAll(ps: seq<bytes>): bytes {
    if ps == [] then [] else Encode(ps[0]) + EncodeAll(ps[1..])
  }

  function Joined(r: Result<seq<bytes>>): Result<bytes> {
    match r case Ok(ps) => Ok(Flatten(ps)) case Err(e) => Err(e)
  }

  function Prepend(out: bytes, r: Result<bytes>): Result<bytes> {
    match r case Ok(more) => Ok(out + more) case Err(e) => Err(e)
  }

  /** One round of the loop: the first frame's payload, then the rest of the buffer. */
  lemma ParseRound(data: bytes)
    requires data != []
    ensures match DecodeFrame(data)
            case Err(e) => Joined(Parse(data)) == Err(e)
            case Ok(p) => HEADER_LEN + |p| <= |data|
                          && Joined(Parse(data)) == Prepend(p, Joined(Parse(data[HEADER_LEN + |p|..])))
  {
    hide FromBigEndian32;
    if DecodeFrame(data).Ok? {
      var p := DecodeFrame(data).value;
      var rest := Parse(data[HEADER_LEN + |p|..]);
      if rest.Ok? {
        assert ([p] + rest.value)[1..] == rest.value;
      }
    }
  }

  lemma PrependTwice(out: bytes, p: bytes, r: Result<bytes>)
    ensures Prepend(out, Prepend(p, r)) == Prepend(out + p, r)
    ensures Prepend([], r) == r
  {
    if r.Ok? {
      assert out + (p + r.value) == (out + p) + r.value;
      assert [] + r.value == r.value;
    }
  }

  /** `decode_grpc_frames`: the loop over `offset` and `out`. */
  method DecodeFrames(data: bytes) returns (r: Result<bytes>)
    ensures r == Joined(Parse(data))
  {
    hide Parse, FromBigEndian32;
    var out: bytes, offset := [], 0;
    assert data[0..] == data;
    PrependTwice([], [], Joined(Parse(data)));
    while offset < |data|
      invariant 0 <= offset <= |data|
      invariant Joined(Parse(data)) == Prepend(out, Joined(Parse(data[offset..])))
    {
      var remaining := data[offset..];
      ParseRound(remaining);
      if |remaining| < HEADER_LEN {
        return Err(TooShort(|remaining|));
      }
      var flag := remaining[0];
      if flag != 0 {
        return Err(Compressed(flag));
      }
      var declared := FromBigEndian32(remaining[1..HEADER_LEN]);
      var start := HEADER_LEN;
      var end := start + declared;
      if end > |remaining| {
        return Err(Truncated(declared, |remaining| - HEADER_LEN));
      }
      assert remaining[end..] == data[offset + end..];
      PrependTwice(out, remaining[start..end], Joined(Parse(remaining[end..])));
      out := out + remaining[start..end];
      offset := offset + end;
    }
    assert data[offset..] == [];
    ParseNothing();
    assert out + [] == out;
    return Ok(out);
  }

  lemma ParseNothing()
    ensures Joined(Parse([])) == Ok([])
  {
  }

  // ----- the codec is a bijection -----

  ghost predicate Encodable(ps: seq<bytes>) {
    forall i :: 0 <= i < |ps| ==> |ps[i]| < WIDTH
  }

  /** The first frame of anything that starts with an encoded payload is that payload, cut to the
      32 bits the length field holds. */
  lemma DecodeAfterEncode(payload: bytes, tail: bytes)
    ensures DecodeFrame(Encode(payload) + tail) == Ok(payload[..|payload| % WIDTH])
    ensures |payload| < WIDTH ==> DecodeFrame(Encode(payload) + tail) == Ok(payload)
    ensures |Encode(payload)| == HEADER_LEN + |payload|
  {
    var data := Encode(payload) + tail;
    assert data[1..HEADER_LEN] == BigEndian32(|payload| % WIDTH);
    BigEndianRoundTrip(|payload| % WIDTH);
    assert data[HEADER_LEN..HEADER_LEN + |payload| % WIDTH] == payload[..|payload| % WIDTH];
  }

  /** Conversely, a decoded frame is the encoding of what was decoded. */
  lemma EncodeAfterDecode(data: bytes)
    requires DecodeFrame(data).Ok?
    ensures var p := DecodeFrame(data).value;
            |p| < WIDTH && HEADER_LEN + |p| <= |data| && data == Encode(p) + data[HEADER_LEN + |p|..]
  {
    hide FromBigEndian32, BigEndian32;
    var p := DecodeFrame(data).value;
    BigEndianInjective(data[1..HEADER_LEN]);
    assert data[..HEADER_LEN] == [0] + data[1..HEADER_LEN];
    assert data == data[..HEADER_LEN] + p + data[HEADER_LEN + |p|..];
  }

  /** Decoding undoes encoding, for any number of frames. */
  lemma {:induction false} ParseAfterEncodeAll(ps: seq<bytes>)
    requires Encodable(ps)
    ensures Parse(EncodeAll(ps)) == Ok(ps)
  {
    if ps != [] {
      var tail := EncodeAll(ps[1..]);
      ParseAfterEncodeAll(ps[1..]);
      ParseFirst(ps[0], tail);
      assert ps == [ps[0]] + ps[1..];
    }
  }

  lemma ParseFirst(p: bytes, tail: bytes)
    requires |p| < WIDTH && Parse(tail).Ok?
    ensures Parse(Encode(p) + tail) == Ok([p] + Parse(tail).value)
  {
    DecodeAfterEncode(p, tail);
    DropConcat(Encode(p), tail);
    assert Encode(p) + tail != [];
  }

  /** Encoding undoes decoding: whatever the decoder accepts is a concatenation of encoded frames. */
  lemma {:induction false} EncodeAllAfterParse(data: bytes)
    requires Parse(data).Ok?
    ensures Encodable(Parse(data).value) && EncodeAll(Parse(data).value) == data
    decreases |data|
  {
    if data != [] {
      var p := DecodeFrame(data).value;
      EncodeAfterDecode(data);
      var tail := data[HEADER_LEN + |p|..];
      EncodeAllAfterParse(tail);
      assert Parse(data).value[1..] == Parse(tail).value;
    }
  }

  /** `decode_grpc_frames` accepts exactly the concatenations of encoded frames, the split into
      frames is unique, and the result is the payloads joined in order. */
  lemma DecodeFramesExact(data: bytes, ps: seq<bytes>)
    ensures Encodable(ps) && data == EncodeAll(ps) <==> Parse(data) == Ok(ps)
    ensures Encodable(ps) && data == EncodeAll(ps) ==> Joined(Parse(data)) == Ok(Flatten(ps))
  {
    if Parse(data) == Ok(ps) {
      EncodeAllAfterParse(data);
    }
    if Encodable(ps) && data == EncodeAll(ps) {
      ParseAfterEncodeAll(ps);
    }
  }

  lemma {:induction false} EncodeAllConcat(ps: seq<bytes>, qs: seq<bytes>)
    ensures EncodeAll(ps + qs) == EncodeAll(ps) + EncodeAll(qs)
  {
    if ps == [] {
      assert ps + qs == qs;
    } else {
      assert (ps + qs)[1..] == ps[1..] + qs;
      EncodeAllConcat(ps[1..], qs);
    }
  }

  /** A cut of a well-formed stream is accepted exactly when it falls on a frame boundary. */
  lemma CutAcceptedOnlyAtBoundary(ps: seq<bytes>, k: nat)
    requires Encodable(ps) && k <= |EncodeAll(ps)|
    ensures Parse(EncodeAll(ps)[..k]).Ok? <==> exists j :: 0 <= j <= |ps| && k == |EncodeAll(ps[..j])|
  {
    hide Encode, Parse;
    var data := EncodeAll(ps);
    if Parse(data[..k]).Ok? {
      EncodeAllAfterParse(data[..k]);
      var qs := Parse(data[..k]).value;
      assert EncodeAll(qs) + data[k..] == data;
      PrefixFrames(qs, ps, data[k..]);
      assert k == |EncodeAll(ps[..|qs|])|;
    }
    if j :| 0 <= j <= |ps| && k == |EncodeAll(ps[..j])| {
      CutAtBoundary(ps, j);
    }
  }

  lemma CutAtBoundary(ps: seq<bytes>, j: nat)
    requires Encodable(ps) && j <= |ps|
    ensures var k := |EncodeAll(ps[..j])|; k <= |EncodeAll(ps)| && Parse(EncodeAll(ps)[..k]) == Ok(ps[..j])
  {
    hide Encode, Parse;
    EncodeAllConcat(ps[..j], ps[j..]);
    assert ps == ps[..j] + ps[j..];
    ParseAfterEncodeAll(ps[..j]);
  }

  lemma DropConcat(front: bytes, tail: bytes)
    ensures (front + tail)[|front|..] == tail
  {
  }

  lemma SameFirstFrame(p: bytes, q: bytes, a: bytes, b: bytes)
    requires |p| < WIDTH && |q| < WIDTH && Encode(p) + a == Encode(q) + b
    ensures p == q && a == b
  {
    DecodeAfterEncode(p, a);
    DecodeAfterEncode(q, b);
    DropConcat(Encode(p), a);
    DropConcat(Encode(q), b);
  }

  /** If one stream of frames is a byte prefix of another, its frames are the other's first ones. */
  lemma {:induction false} PrefixFrames(qs: seq<bytes>, ps: seq<bytes>, more: bytes)
    requires Encodable(qs) && Encodable(ps) && EncodeAll(qs) + more == EncodeAll(ps)
    ensures |qs| <= |ps| && qs == ps[..|qs|]
    decreases |qs|
  {
    if qs != [] {
      assert |EncodeAll(qs)| > 0;
      var rest := EncodeAll(qs[1..]) + more;
      assert EncodeAll(qs) + more == Encode(qs[0]) + rest;
      SameFirstFrame(qs[0], ps[0], rest, EncodeAll(ps[1..]));
      PrefixFrames(qs[1..], ps[1..], more);
      assert qs == [qs[0]] + qs[1..] && ps[..|qs|] == [ps[0]] + ps[1..][..|qs| - 1];
    }
  }

  /** On a buffer holding one frame the two decoders agree. */
  lemma SingleFrameAgreement(payload: bytes)
    requires |payload| < WIDTH
    ensures DecodeFrame(Encode(payload)) == Ok(payload) == Joined(Parse(Encode(payload)))
  {
    DecodeAfterEncode(payload, []);
    assert Encode(payload) + [] == Encode(payload);
    ParseAfterEncodeAll([payload]);
    assert EncodeAll([payload]) == Encode(payload) + EncodeAll([]) == Encode(payload);
    assert Flatten([payload]) == payload + Flatten([]) == payload;
  }

  // ----- the bytes on the wire -----

  /** The encoder's output byte by byte: no compression, the length with its most significant byte
      first, the payload. */
  lemma WireFormat(payload: bytes)
    requires |payload| < 0x1_0000_0000
    ensures var e := Encode(payload);
            && |e| == 5 + |payload| && e[0] == 0 && e[5..] == payload
            && e[1] as int * 0x100_0000 + e[2] as int * 0x1_0000 + e[3] as int * 0x100 + e[4] as int == |payload|
  {
    hide BigEndian32;
    var e, field := Encode(payload), BigEndian32(|payload|);
    assert |payload| % WIDTH == |payload|;
    LengthField(|payload|);
    assert e[1] == field[0] && e[2] == field[1] && e[3] == field[2] && e[4] == field[3];
  }

  lemma LengthField(n: nat)
    requires n < WIDTH
    ensures var b := BigEndian32(n);
            b[0] as int * 0x100_0000 + b[1] as int * 0x1_0000 + b[2] as int * 0x100 + b[3] as int == n
  {
    hide BigEndian32;
    BigEndianRoundTrip(n);
  }

  /** The length a buffer declares, from its bytes 1 to 4. */
  function WireLength(data: bytes): int
    requires |data| >= 5
  {
    data[1] as int * 0x100_0000 + data[2] as int * 0x1_0000 + data[3] as int * 0x100 + data[4] as int
  }

  /** The single-frame decoder on the bytes: it accepts exactly a header with a zero flag whose length is
      covered by what follows, and takes that many bytes; otherwise it names the first thing wrong. */
  lemma DecodeFrameOnWire(data: bytes)
    ensures DecodeFrame(data).Ok? <==> |data| >= 5 && data[0] == 0 && WireLength(data) <= |data| - 5
    ensures DecodeFrame(data).Ok? ==> DecodeFrame(data).value == data[5..5 + WireLength(data)]
    ensures |data| < 5 ==> DecodeFrame(data) == Err(TooShort(|data|))
    ensures |data| >= 5 && data[0] != 0 ==> DecodeFrame(data) == Err(Compressed(data[0]))
    ensures |data| >= 5 && data[0] == 0 && WireLength(data) > |data| - 5 ==>
              DecodeFrame(data) == Err(Truncated(WireLength(data), |data| - 5))
  {
    if |data| >= 5 {
      var field := data[1..5];
      assert field[0] == data[1] && field[1] == data[2] && field[2] == data[3] && field[3] == data[4];
    }
  }

  /** What the multi-frame decoder refuses: a run of whole frames followed by a non-empty rest that is no
      frame; its error is that of the rest. */
  lemma {:induction false} ParseErrorExact(data: bytes, e: Error)
    ensures Parse(data) == Err(e) <==>
            exists ps: seq<bytes>, rest: bytes :: Encodable(ps) && rest != [] && data == EncodeAll(ps) + rest
                                                  && DecodeFrame(rest) == Err(e)
    decreases |data|
  {
    hide DecodeFrame, Encode;
    if ps: seq<bytes>, rest: bytes :| Encodable(ps) && rest != [] && data == EncodeAll(ps) + rest
                                      && DecodeFrame(rest) == Err(e) {
      ErrorAfterFrames(ps, rest, e);
    }
    if Parse(data) == Err(e) {
      var ps, rest := FirstError(data, e);
    }
  }

  lemma {:induction false} ErrorAfterFrames(ps: seq<bytes>, rest: bytes, e: Error)
    requires Encodable(ps) && rest != [] && DecodeFrame(rest) == Err(e)
    ensures Parse(EncodeAll(ps) + rest) == Err(e)
  {
    hide Encode;
    if ps == [] {
      assert EncodeAll(ps) + rest == rest;
    } else {
      var tail := EncodeAll(ps[1..]) + rest;
      ErrorAfterFrames(ps[1..], rest, e);
      assert EncodeAll(ps) + rest == Encode(ps[0]) + tail;
      DecodeAfterEncode(ps[0], tail);
      DropConcat(Encode(ps[0]), tail);
    }
  }

  lemma {:induction false} FirstError(data: bytes, e: Error) returns (ps: seq<bytes>, rest: bytes)
    requires Parse(data) == Err(e)
    ensures Encodable(ps) && rest != [] && data == EncodeAll(ps) + rest && DecodeFrame(rest) == Err(e)
    decreases |data|
  {
    hide Encode, FromBigEndian32;
    if DecodeFrame(data).Err? {
      ps, rest := [], data;
      assert EncodeAll([]) + data == data;
    } else {
      var p := DecodeFrame(data).value;
      EncodeAfterDecode(data);
      var more: seq<bytes>;
      more, rest := FirstError(data[HEADER_LEN + |p|..], e);
      ps := [p] + more;
      assert ps[1..] == more;
      assert Encode(p) + (EncodeAll(more) + rest) == (Encode(p) + EncodeAll(more)) + rest;
    }
  }

  /** Each accepted frame costs its five header bytes. */
  lemma {:induction false} ParseLength(data: bytes)
    requires Parse(data).Ok?
    ensures |data| == |Flatten(Parse(data).value)| + HEADER_LEN * |Parse(data).value|
    decreases |data|
  {
    if data != [] {
      var p := DecodeFrame(data).value;
      var tail := data[HEADER_LEN + |p|..];
      ParseLength(tail);
      assert Parse(data).value[1..] == Parse(tail).value;
    }
  }

  lemma OneFrame(ps: seq<bytes>)
    ensures |ps| == 1 ==> Flatten(ps) == ps[0]
  {
    if |ps| == 1 {
      assert Flatten(ps) == ps[0] + Flatten([]);
    }
  }

  /** The round trip holds exactly for payloads whose length fits the 32-bit field: a longer one is
      encoded with a truncated length and neither decoder gives it back. */
  lemma RoundTripExactlyBelow4GiB(payload: bytes)
    ensures DecodeFrame(Encode(payload)) == Ok(payload) <==> |payload| < WIDTH
    ensures Joined(Parse(Encode(payload))) == Ok(payload) <==> |payload| < WIDTH
  {
    var data := Encode(payload);
    DecodeAfterEncode(payload, []);
    assert data + [] == data;
    if |payload| < WIDTH {
      SingleFrameAgreement(payload);
    } else if Parse(data).Ok? {
      ParseLength(data);
      EncodeAllAfterParse(data);
      var ps := Parse(data).value;
      OneFrame(ps);
    }
  }
}
