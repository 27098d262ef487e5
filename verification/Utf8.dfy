/** UTF-8 as the platform encoder writes it and the fatal decoder reads it. */
module Utf8 {
  import opened Numeric
  import opened JsonValue
  import opened CanonicalJson

  type Byte = b: int | 0 <= b < 0x100

  type Bytes = seq<Byte>

  /** A Unicode scalar value: a code point that is not a surrogate. */
  predicate IsScalar(p: int) { 0 <= p < 0xD800 || 0xE000 <= p < 0x110000 }

  const REPLACEMENT: int := 0xFFFD

  function EncodePoint(p: int): Bytes
    requires 0 <= p < 0x110000
  {
    if p < 0x80 then [p]
    else if p < 0x800 then [0xC0 + p / 64, 0x80 + p % 64]
    else if p < 0x10000 then [0xE0 + p / 4096, 0x80 + p / 64 % 64, 0x80 + p % 64]
    else [0xF0 + p / 262144, 0x80 + p / 4096 % 64, 0x80 + p / 64 % 64, 0x80 + p % 64]
  }

  /** The examples of section 7 of RFC 3629, one of each length, and e with an acute accent. */
  lemma KnownPoints()
    ensures EncodePoint(0x41) == [0x41] && EncodePoint(0xe9) == [0xc3, 0xa9] && EncodePoint(0x391) == [0xce, 0x91]
    ensures EncodePoint(0x2262) == [0xe2, 0x89, 0xa2] && EncodePoint(0x233b4) == [0xf0, 0xa3, 0x8e, 0xb4]
  {
  }

  function PointLength(p: int): nat {
    if p < 0x80 then 1 else if p < 0x800 then 2 else if p < 0x10000 then 3 else 4
  }

  function PairPoint(lead: CodeUnit, trail: CodeUnit): (p: int)
    requires IsLead(lead) && IsTrail(trail)
    ensures 0x10000 <= p < 0x110000
  {
    0x10000 + (lead - 0xD800) * 1024 + (trail - 0xDC00)
  }

  /** The code units of a scalar value. */
  function PointUnits(p: int): Text
    requires IsScalar(p)
  {
    if p < 0x10000 then [p] else [0xD800 + (p - 0x10000) / 1024, 0xDC00 + (p - 0x10000) % 1024]
  }

  /** Lone surrogates become the replacement character. */
  function Encode(t: Text): Bytes {
    if t == [] then []
    else if StartsPair(t) then EncodePoint(PairPoint(t[0], t[1])) + Encode(t[2..])
    else if IsLead(t[0]) || IsTrail(t[0]) then EncodePoint(REPLACEMENT) + Encode(t[1..])
    else EncodePoint(t[0]) + Encode(t[1..])
  }

  predicate IsCont(b: Byte) { 0x80 <= b < 0xC0 }

  /** The six payload bits of a continuation byte. */
  function Payload(b: int): int { b - 0x80 }

  /** The scalar value at the front, in its shortest form only. */
  function DecodePoint(b: Bytes): (r: Option<int>)
    requires b != []
    ensures r.Some? ==> IsScalar(r.value) && PointLength(r.value) <= |b|
  {
    var b0: int := b[0];
    if b0 < 0x80 then Some(b0)
    else if 0xC2 <= b0 < 0xE0 && |b| >= 2 && IsCont(b[1]) then Some((b0 - 0xC0) * 64 + Payload(b[1]))
    else if 0xE0 <= b0 < 0xF0 && |b| >= 3 && IsCont(b[1]) && IsCont(b[2])
      && (b0 == 0xE0 ==> b[1] >= 0xA0) && (b0 == 0xED ==> b[1] < 0xA0)
    then Some((b0 - 0xE0) * 4096 + Payload(b[1]) * 64 + Payload(b[2]))
    else if 0xF0 <= b0 < 0xF5 && |b| >= 4 && IsCont(b[1]) && IsCont(b[2]) && IsCont(b[3])
      && (b0 == 0xF0 ==> b[1] >= 0x90) && (b0 == 0xF4 ==> b[1] < 0x90)
    then Some((b0 - 0xF0) * 262144 + Payload(b[1]) * 4096 + Payload(b[2]) * 64 + Payload(b[3]))
    else None
  }

  function DecodeAll(b: Bytes): Option<Text>
    decreases |b|
  {
    if b == [] then Some([])
    else
      match DecodePoint(b)
      case None => None
      case Some(p) =>
        match DecodeAll(b[PointLength(p)..])
        case None => None
        case Some(t) => Some(PointUnits(p) + t)
  }

  const BYTE_ORDER_MARK: Bytes := [0xEF, 0xBB, 0xBF]

  /** The fatal decoder: a leading byte order mark is dropped, malformed bytes are rejected. */
  function Decode(b: Bytes): Option<Text> {
    if BYTE_ORDER_MARK <= b then DecodeAll(b[3..]) else DecodeAll(b)
  }

  lemma SixBits(p: nat)
    ensures p / 64 == p / 4096 * 64 + p / 64 % 64 && p / 4096 == p / 262144 * 64 + p / 4096 % 64
  {
    var q := p / 64;
    var r := q / 64;
    assert p == 64 * q + p % 64 && q == 64 * r + q % 64;
    assert p / 4096 == r;
    assert p / 262144 == r / 64;
  }

  lemma PointRoundTrip(p: int, more: Bytes)
    requires IsScalar(p)
    ensures var b := EncodePoint(p) + more;
      b != [] && DecodePoint(b) == Some(p) && b[PointLength(p)..] == more
  {
    SixBits(p);
  }

  lemma DecodeStep(b: Bytes, p: int, more: Bytes, t: Text)
    requires b != [] && IsScalar(p) && PointLength(p) <= |b|
    requires DecodePoint(b) == Some(p) && b[PointLength(p)..] == more
    requires DecodeAll(more) == Some(t)
    ensures DecodeAll(b) == Some(PointUnits(p) + t)
  {
  }

  lemma PairUnits(lead: CodeUnit, trail: CodeUnit)
    requires IsLead(lead) && IsTrail(trail)
    ensures PointUnits(PairPoint(lead, trail)) == [lead, trail]
  {
  }

  /** Encoding then decoding gives well-formed text back. */
  lemma {:induction false} EncodeDecodes(t: Text)
    requires WellFormed(t)
    ensures DecodeAll(Encode(t)) == Some(t)
  {
    if t == [] {
    } else if StartsPair(t) {
      EncodeDecodes(t[2..]);
      var p := PairPoint(t[0], t[1]);
      PointRoundTrip(p, Encode(t[2..]));
      DecodeStep(Encode(t), p, Encode(t[2..]), t[2..]);
      PairUnits(t[0], t[1]);
      assert t == [t[0], t[1]] + t[2..];
    } else {
      EncodeDecodes(t[1..]);
      PointRoundTrip(t[0], Encode(t[1..]));
      DecodeStep(Encode(t), t[0], Encode(t[1..]), t[1..]);
      assert t == [t[0]] + t[1..];
    }
  }
}
