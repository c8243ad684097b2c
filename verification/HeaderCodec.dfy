/**
 * The wire form of the message header (`network/model/network.proto`), following the
 * "Base 128 Varints" and "Message Structure" sections of the Protocol Buffers Encoding guide:
 * a proto3 printer that omits default values, and a parser that accepts the fields in any
 * order, lets the last occurrence win and skips what it does not know.
 */
module HeaderCodec {
  import opened Prelude

  const KIND_NORMAL: nat := 0
  const KIND_ACK: nat := 1
  const KIND_ACKR: nat := 2

  const MAX_FIELD_NUMBER: nat := 0x1FFF_FFFF

  /** `HeaderData`; the enum is open in proto3, so any 32-bit value may arrive as the kind. */
  datatype HeaderData = HeaderData(kind: nat, id: Bytes, contentType: Bytes, contentLength: nat)

  const EMPTY_HEADER := HeaderData(KIND_NORMAL, [], [], 0)

  // ----- fixed 32-bit big endian ------------------------------------------------------------

  /** `binary.BigEndian.PutUint32`, after Go's conversion to `uint32`. */
  function PutUint32(v: nat): (b: Bytes)
    ensures |b| == 4
  {
    var q1 := v / 256;
    var q2 := q1 / 256;
    var q3 := q2 / 256;
    [q3 % 256, q2 % 256, q1 % 256, v % 256]
  }

  function Uint32(b: Bytes): (v: nat)
    requires |b| == 4
    ensures v < TWO_32
  {
    var b0: int, b1: int, b2: int, b3: int := b[0], b[1], b[2], b[3];
    b0 * 0x100_0000 + b1 * 0x1_0000 + b2 * 0x100 + b3
  }

  /** The conversion keeps the low 32 bits and nothing else. */
  lemma Uint32RoundTrip(v: nat)
    ensures Uint32(PutUint32(v)) == v % TWO_32
  {
    var q1 := v / 256;
    var q2 := q1 / 256;
    var q3 := q2 / 256;
    var r := Uint32(PutUint32(v));
    assert v == TWO_32 * (q3 / 256) + r;
    UniqueRemainder(v, q3 / 256, r);
  }

  lemma UniqueRemainder(v: nat, q: nat, r: nat)
    requires v == TWO_32 * q + r && r < TWO_32
    ensures v % TWO_32 == r
  {
  }

  /** The most significant byte comes first. */
  lemma BigEndian(v: nat)
    ensures var b := PutUint32(v);
      b[0] as int * 0x100_0000 + b[1] as int * 0x1_0000 + b[2] as int * 0x100 + b[3] as int == v % TWO_32
  {
    Uint32RoundTrip(v);
  }

  // ----- base 128 varints -------------------------------------------------------------------

  function EncodeVarint(v: nat): (b: Bytes)
    ensures |b| > 0
  {
    if v < 128 then [v] else [128 + v % 128] + EncodeVarint(v / 128)
  }

  /** Reads the varint whose first `k` bytes were already consumed; a varint has at most ten
      bytes and the tenth may only carry the top bit of a 64-bit value. */
  function DecodeVarintFrom(b: Bytes, k: nat): (r: Option<(nat, nat)>)
    requires k <= 9
    ensures r.Some? ==> 0 < r.value.1 <= |b|
    decreases 9 - k
  {
    if b == [] then None
    else if k == 9 then (if b[0] < 2 then Some((b[0], 1)) else None)
    else if b[0] < 128 then Some((b[0], 1))
    else match DecodeVarintFrom(b[1..], k + 1)
      case None => None
      case Some(p) => Some((b[0] - 128 + 128 * p.0, p.1 + 1))
  }

  function DecodeVarint(b: Bytes): (r: Option<(nat, nat)>)
    ensures r.Some? ==> 0 < r.value.1 <= |b|
  {
    DecodeVarintFrom(b, 0)
  }

  /** Values that still fit when `k` bytes of seven bits are behind us. */
  function VarintBound(k: nat): nat
    requires k <= 9
    decreases 9 - k
  {
    if k == 9 then 2 else 128 * VarintBound(k + 1)
  }

  lemma {:induction false} VarintRoundTripFrom(v: nat, rest: Bytes, k: nat)
    requires k <= 9 && v < VarintBound(k)
    ensures DecodeVarintFrom(EncodeVarint(v) + rest, k) == Some((v, |EncodeVarint(v)|))
    decreases 9 - k
  {
    var b := EncodeVarint(v) + rest;
    if v < 128 {
      assert b[0] == v;
    } else {
      assert b[1..] == EncodeVarint(v / 128) + rest;
      VarintRoundTripFrom(v / 128, rest, k + 1);
    }
  }

  /** Every 64-bit value survives printing and parsing, whatever follows it. */
  lemma VarintRoundTrip(v: nat, rest: Bytes)
    requires v < 0x1_0000_0000_0000_0000
    ensures DecodeVarint(EncodeVarint(v) + rest) == Some((v, |EncodeVarint(v)|))
  {
    assert VarintBound(8) == 256 && VarintBound(7) == 0x8000 && VarintBound(6) == 0x40_0000;
    assert VarintBound(5) == 0x2000_0000 && VarintBound(4) == 0x10_0000_0000;
    assert VarintBound(3) == 0x800_0000_0000 && VarintBound(2) == 0x4_0000_0000_0000;
    assert VarintBound(1) == 0x200_0000_0000_0000 && VarintBound(0) == 0x1_0000_0000_0000_0000;
    VarintRoundTripFrom(v, rest, 0);
  }

  /** The number that a little endian row of seven-bit digits stands for. */
  function Base128(b: Bytes): nat {
    if b == [] then 0 else b[0] as int % 128 + 128 * Base128(b[1..])
  }

  /** A printed varint: the digits of the number, the top bit of every byte but the last set, and no
      more digits than needed. */
  lemma {:induction false} VarintDigits(v: nat)
    ensures var b := EncodeVarint(v);
      && Base128(b) == v
      && (forall i | 0 <= i < |b| :: b[i] >= 128 <==> i < |b| - 1)
      && (|b| > 1 ==> b[|b| - 1] != 0)
    decreases v
  {
    if v >= 128 {
      VarintDigits(v / 128);
      var b, rest := EncodeVarint(v), EncodeVarint(v / 128);
      assert b[1..] == rest;
      forall i | 0 < i < |b| ensures b[i] == rest[i - 1] {}
    }
  }

  /** The first `n` bytes are a varint of at most `limit` bytes, and with all of them it has only the
      lowest bit in the last. */
  ghost predicate IsVarint(b: Bytes, n: nat, limit: nat) {
    && 0 < n <= limit && n <= |b| && b[n - 1] < 128 && (forall i | 0 <= i < n - 1 :: b[i] >= 128)
    && (n == limit ==> b[n - 1] < 2)
  }

  lemma {:induction false} DecodesFrom(b: Bytes, k: nat, n: nat)
    requires k <= 9 && IsVarint(b, n, 10 - k)
    ensures DecodeVarintFrom(b, k) == Some((Base128(b[..n]), n))
    decreases 9 - k
  {
    if n == 1 {
      assert b[..1] == [b[0]] && Base128([b[0]]) == b[0];
    } else {
      var rest := b[1..];
      assert IsVarint(rest, n - 1, 9 - k) && b[0] >= 128 && k < 9;
      DecodesFrom(rest, k + 1, n - 1);
      assert b[..n][1..] == rest[..n - 1] && b[..n][0] == b[0];
      assert Base128(b[..n]) == b[0] as int % 128 + 128 * Base128(rest[..n - 1]);
      TopBitOff(b[0]);
      hide Base128, IsVarint;
    }
  }

  lemma TopBitOff(x: byte)
    requires x >= 128
    ensures x as int % 128 == x - 128
  {
  }

  lemma {:induction false} DecodedIsVarint(b: Bytes, k: nat)
    requires k <= 9 && DecodeVarintFrom(b, k).Some?
    ensures IsVarint(b, DecodeVarintFrom(b, k).value.1, 10 - k)
    decreases 9 - k
  {
    if b[0] >= 128 && k < 9 {
      var rest := b[1..];
      DecodedIsVarint(rest, k + 1);
      var n := DecodeVarintFrom(rest, k + 1).value.1;
      forall i | 0 < i < n + 1 ensures b[i] == rest[i - 1] {}
    }
  }

  /** What the parser takes for a varint: at most ten bytes, the last one without the top bit, and no
      more than 64 bits in all; its value is that of its digits. */
  lemma VarintsExactly(b: Bytes, v: nat, n: nat)
    ensures DecodeVarint(b) == Some((v, n)) <==> IsVarint(b, n, 10) && v == Base128(b[..n])
  {
    if IsVarint(b, n, 10) { DecodesFrom(b, 0, n); }
    if DecodeVarint(b).Some? {
      DecodedIsVarint(b, 0);
      DecodesFrom(b, 0, DecodeVarint(b).value.1);
    }
  }

  // ----- UTF-8 ------------------------------------------------------------------------------

  predicate Continuation(b: byte) { 0x80 <= b <= 0xBF }

  /** Length of the well-formed UTF-8 sequence at the front (RFC 3629, section 4); 0 if none. */
  function Utf8Lead(s: Bytes): (n: nat)
    requires s != []
    ensures n <= |s|
  {
    if s[0] < 0x80 then 1
    else if 0xC2 <= s[0] <= 0xDF && |s| >= 2 && Continuation(s[1]) then 2
    else if 0xE0 <= s[0] <= 0xEF && |s| >= 3 && Continuation(s[1]) && Continuation(s[2])
            && (s[0] == 0xE0 ==> s[1] >= 0xA0) && (s[0] == 0xED ==> s[1] <= 0x9F) then 3
    else if 0xF0 <= s[0] <= 0xF4 && |s| >= 4 && Continuation(s[1]) && Continuation(s[2]) && Continuation(s[3])
            && (s[0] == 0xF0 ==> s[1] >= 0x90) && (s[0] == 0xF4 ==> s[1] <= 0x8F) then 4
    else 0
  }

  /** proto3 strings must be UTF-8, both when printed and when parsed. */
  predicate ValidUtf8(s: Bytes)
    decreases |s|
  {
    s == [] || (Utf8Lead(s) > 0 && ValidUtf8(s[Utf8Lead(s)..]))
  }

  /** A Unicode scalar value: a code point that is no surrogate. */
  predicate Scalar(c: nat) {
    c < 0xD800 || 0xE000 <= c < 0x11_0000
  }

  /** RFC 3629, section 3: the bytes of a scalar value. */
  function Utf8Of(c: nat): Bytes
    requires Scalar(c)
  {
    if c < 0x80 then [c]
    else if c < 0x800 then [0xC0 + c / 64, 0x80 + c % 64]
    else if c < 0x1_0000 then [0xE0 + c / 4096, 0x80 + c / 64 % 64, 0x80 + c % 64]
    else [0xF0 + c / 26_2144, 0x80 + c / 4096 % 64, 0x80 + c / 64 % 64, 0x80 + c % 64]
  }

  ghost predicate Scalars(cs: seq<nat>) {
    forall c | c in cs :: Scalar(c)
  }

  ghost function Utf8OfAll(cs: seq<nat>): Bytes
    requires Scalars(cs)
  {
    if cs == [] then [] else Utf8Of(cs[0]) + Utf8OfAll(cs[1..])
  }

  lemma LeadOfScalar(c: nat, rest: Bytes)
    requires Scalar(c)
    ensures Utf8Of(c) + rest != [] && Utf8Lead(Utf8Of(c) + rest) == |Utf8Of(c)|
  {
  }

  lemma Digits(a: nat, b: nat)
    requires b < 64
    ensures (a * 64 + b) / 64 == a && (a * 64 + b) % 64 == b
  {
  }

  lemma ThreeDigits(a: nat, b: nat, c: nat)
    requires b < 64 && c < 64
    ensures var n := (a * 64 + b) * 64 + c; n / 4096 == a && n / 64 % 64 == b && n % 64 == c
  {
    var n := (a * 64 + b) * 64 + c;
    Digits(a * 64 + b, c);
    Digits(a, b);
    assert n == a * 4096 + (b * 64 + c) && b * 64 + c < 4096;
  }

  lemma FourDigits(a: nat, b: nat, c: nat, d: nat)
    requires b < 64 && c < 64 && d < 64
    ensures var n := ((a * 64 + b) * 64 + c) * 64 + d;
      n / 26_2144 == a && n / 4096 % 64 == b && n / 64 % 64 == c && n % 64 == d
  {
    var n := ((a * 64 + b) * 64 + c) * 64 + d;
    ThreeDigits(a * 64 + b, c, d);
    Digits(a, b);
    assert n == a * 26_2144 + (b * 4096 + c * 64 + d) && b * 4096 + c * 64 + d < 26_2144;
  }

  lemma TwoBytes(s: Bytes) returns (c: nat)
    requires s != [] && Utf8Lead(s) == 2
    ensures Scalar(c) && Utf8Of(c) == s[..2]
  {
    c := (s[0] as int - 0xC0) * 64 + (s[1] as int - 0x80);
    Digits(s[0] as int - 0xC0, s[1] as int - 0x80);
    assert 0x80 <= c < 0x800;
  }

  lemma ThreeBytes(s: Bytes) returns (c: nat)
    requires s != [] && Utf8Lead(s) == 3
    ensures Scalar(c) && Utf8Of(c) == s[..3]
  {
    c := ((s[0] as int - 0xE0) * 64 + (s[1] as int - 0x80)) * 64 + (s[2] as int - 0x80);
    ThreeDigits(s[0] as int - 0xE0, s[1] as int - 0x80, s[2] as int - 0x80);
    assert 0x800 <= c < 0x1_0000;
  }

  lemma FourBytes(s: Bytes) returns (c: nat)
    requires s != [] && Utf8Lead(s) == 4
    ensures Scalar(c) && Utf8Of(c) == s[..4]
  {
    c := (((s[0] as int - 0xF0) * 64 + (s[1] as int - 0x80)) * 64 + (s[2] as int - 0x80)) * 64 + (s[3] as int - 0x80);
    FourDigits(s[0] as int - 0xF0, s[1] as int - 0x80, s[2] as int - 0x80, s[3] as int - 0x80);
    assert 0x1_0000 <= c < 0x11_0000;
  }

  lemma LeadIsScalar(s: Bytes) returns (c: nat)
    requires s != [] && Utf8Lead(s) > 0
    ensures Scalar(c) && Utf8Of(c) == s[..Utf8Lead(s)]
  {
    match Utf8Lead(s)
    case 2 => c := TwoBytes(s);
    case 3 => c := ThreeBytes(s);
    case 4 => c := FourBytes(s);
    case _ => c := s[0];
  }

  /** A string passes the check exactly if it is the encoding of some scalar values. */
  lemma ValidUtf8Exactly(s: Bytes)
    ensures ValidUtf8(s) <==> exists cs :: Scalars(cs) && Utf8OfAll(cs) == s
  {
    if ValidUtf8(s) { var cs := ScalarsOf(s); }
    if cs :| Scalars(cs) && Utf8OfAll(cs) == s { ScalarsAreValid(cs); }
  }

  lemma {:induction false} ScalarsOf(s: Bytes) returns (cs: seq<nat>)
    requires ValidUtf8(s)
    ensures Scalars(cs) && Utf8OfAll(cs) == s
    decreases |s|
  {
    if s == [] {
      cs := [];
    } else {
      var n := Utf8Lead(s);
      var c := LeadIsScalar(s);
      var rest := ScalarsOf(s[n..]);
      cs := [c] + rest;
      assert cs[1..] == rest && s == s[..n] + s[n..];
    }
  }

  lemma {:induction false} ScalarsAreValid(cs: seq<nat>)
    requires Scalars(cs)
    ensures ValidUtf8(Utf8OfAll(cs))
  {
    if cs != [] {
      var rest := Utf8OfAll(cs[1..]);
      assert Scalar(cs[0]);
      LeadOfScalar(cs[0], rest);
      ScalarsAreValid(cs[1..]);
      assert (Utf8Of(cs[0]) + rest)[|Utf8Of(cs[0])|..] == rest;
    }
  }

  // ----- header -----------------------------------------------------------------------------

  function VarintField(num: nat, v: nat): Bytes {
    if v == 0 then [] else EncodeVarint(num * 8) + EncodeVarint(v)
  }

  function StringField(num: nat, s: Bytes): Bytes {
    if s == [] then [] else EncodeVarint(num * 8 + 2) + EncodeVarint(|s|) + s
  }

  /** `proto.Marshal` of the header: an error when a string is not UTF-8. */
  function MarshalHeader(h: HeaderData): Option<Bytes> {
    if ValidUtf8(h.id) && ValidUtf8(h.contentType) then
      Some(VarintField(1, h.kind) + StringField(2, h.id) + StringField(3, h.contentType) +
        VarintField(4, h.contentLength))
    else
      None
  }

  /** A known number with another wire type counts as unknown; 32-bit fields keep the low bits. */
  function SetVarint(h: HeaderData, num: nat, v: nat): HeaderData {
    if num == 1 then h.(kind := v % TWO_32)
    else if num == 4 then h.(contentLength := v % TWO_32)
    else h
  }

  function SetBytes(h: HeaderData, num: nat, s: Bytes): Option<HeaderData> {
    if num == 2 then (if ValidUtf8(s) then Some(h.(id := s)) else None)
    else if num == 3 then (if ValidUtf8(s) then Some(h.(contentType := s)) else None)
    else Some(h)
  }

  /** The value of a field with this number and wire type: the updated header and the bytes after it. */
  function ParseValue(num: nat, wire: nat, b: Bytes, h: HeaderData): (r: Option<(HeaderData, Bytes)>)
    ensures r.Some? ==> |r.value.1| <= |b|
  {
    match wire
    case 0 => (
      match DecodeVarint(b)
      case None => None
      case Some((v, m)) => Some((SetVarint(h, num, v), b[m..])))
    case 1 => if |b| < 8 then None else Some((h, b[8..]))
    case 2 => (
      match DecodeVarint(b)
      case None => None
      case Some((len, m)) =>
        var tail := b[m..];
        if |tail| < len then None
        else match SetBytes(h, num, tail[..len])
          case None => None
          case Some(h') => Some((h', tail[len..])))
    case 5 => if |b| < 4 then None else Some((h, b[4..]))
    case _ => None
  }

  /** Parses one field. */
  function ParseField(b: Bytes, h: HeaderData): (r: Option<(HeaderData, Bytes)>)
    ensures r.Some? ==> |r.value.1| < |b|
  {
    match DecodeVarint(b)
    case None => None
    case Some((tag, n)) =>
      if tag / 8 < 1 || tag / 8 > MAX_FIELD_NUMBER then None else ParseValue(tag / 8, tag % 8, b[n..], h)
  }

  function ParseFields(b: Bytes, h: HeaderData): Option<HeaderData>
    decreases |b|
  {
    if b == [] then Some(h)
    else match ParseField(b, h)
      case None => None
      case Some((h', rest)) => ParseFields(rest, h')
  }

  /** `proto.Unmarshal` into an empty header. */
  function UnmarshalHeader(b: Bytes): Option<HeaderData> {
    ParseFields(b, EMPTY_HEADER)
  }

  predicate HeaderInRange(h: HeaderData) {
    h.kind < TWO_32 && h.contentLength < TWO_32 && |h.id| < TWO_32 && |h.contentType| < TWO_32
  }

  lemma ParseTagged(num: nat, wire: nat, body: Bytes, h: HeaderData)
    requires 1 <= num <= MAX_FIELD_NUMBER && wire < 8
    ensures ParseField(EncodeVarint(num * 8 + wire) + body, h) == ParseValue(num, wire, body, h)
  {
    var tag := EncodeVarint(num * 8 + wire);
    VarintRoundTrip(num * 8 + wire, body);
    assert (tag + body)[|tag|..] == body;
    hide EncodeVarint, DecodeVarint, ParseValue;
  }

  lemma ParseVarintField(num: nat, v: nat, rest: Bytes, h: HeaderData)
    requires 1 <= num <= MAX_FIELD_NUMBER && v < 0x1_0000_0000_0000_0000
    ensures ParseField(EncodeVarint(num * 8) + EncodeVarint(v) + rest, h) == Some((SetVarint(h, num, v), rest))
  {
    hide EncodeVarint, DecodeVarint, SetVarint, SetBytes, ParseField;
    var body := EncodeVarint(v) + rest;
    assert EncodeVarint(num * 8) + EncodeVarint(v) + rest == EncodeVarint(num * 8) + body;
    ParseTagged(num, 0, body, h);
    VarintRoundTrip(v, rest);
    assert body[|EncodeVarint(v)|..] == rest;
  }

  lemma ParseStringField(num: nat, s: Bytes, rest: Bytes, h: HeaderData)
    requires 1 <= num <= MAX_FIELD_NUMBER && |s| < 0x1_0000_0000_0000_0000
    ensures ParseField(EncodeVarint(num * 8 + 2) + EncodeVarint(|s|) + s + rest, h) ==
      match SetBytes(h, num, s) case None => None case Some(h') => Some((h', rest))
  {
    hide EncodeVarint, DecodeVarint, SetVarint, SetBytes, ParseField;
    var tail := s + rest;
    var body := EncodeVarint(|s|) + tail;
    assert EncodeVarint(num * 8 + 2) + EncodeVarint(|s|) + s + rest == EncodeVarint(num * 8 + 2) + body;
    ParseTagged(num, 2, body, h);
    VarintRoundTrip(|s|, tail);
    assert body[|EncodeVarint(|s|)|..] == tail;
    assert tail[..|s|] == s && tail[|s|..] == rest;
  }

  lemma SkipVarintField(num: nat, v: nat, rest: Bytes, h: HeaderData)
    requires 1 <= num < 16 && v < TWO_32
    ensures ParseFields(VarintField(num, v) + rest, h)
            == ParseFields(rest, if v == 0 then h else SetVarint(h, num, v))
  {
    if v == 0 {
      assert VarintField(num, v) + rest == rest;
    } else {
      ParseVarintField(num, v, rest, h);
      assert VarintField(num, v) + rest != [];
    }
  }

  lemma SkipStringField(num: nat, s: Bytes, rest: Bytes, h: HeaderData)
    requires 1 <= num < 16 && |s| < TWO_32
    requires SetBytes(h, num, s).Some?
    ensures ParseFields(StringField(num, s) + rest, h)
            == ParseFields(rest, if s == [] then h else SetBytes(h, num, s).value)
  {
    if s == [] {
      assert StringField(num, s) + rest == rest;
    } else {
      ParseStringField(num, s, rest, h);
      assert StringField(num, s) + rest != [];
    }
  }

  /** The two trailing fields, read after the kind and the id. */
  lemma LastFieldsRoundTrip(contentType: Bytes, contentLength: nat, h: HeaderData)
    requires |contentType| < TWO_32 && contentLength < TWO_32 && ValidUtf8(contentType)
    requires h.contentType == [] && h.contentLength == 0
    ensures ParseFields(StringField(3, contentType) + VarintField(4, contentLength), h)
            == Some(h.(contentType := contentType, contentLength := contentLength))
  {
    hide ParseField, EncodeVarint, ValidUtf8, DecodeVarint, VarintField, StringField;
    var h3 := h.(contentType := contentType);
    var h4 := h3.(contentLength := contentLength);
    assert ParseFields([], h4) == Some(h4);
    hide ParseFields;
    SkipStringField(3, contentType, VarintField(4, contentLength), h);
    SkipVarintField(4, contentLength, [], h3);
    assert VarintField(4, contentLength) + [] == VarintField(4, contentLength);
  }

  /** Whatever the writer can print, the reader reads back unchanged. */
  lemma HeaderRoundTrip(h: HeaderData)
    requires HeaderInRange(h) && MarshalHeader(h).Some?
    ensures UnmarshalHeader(MarshalHeader(h).value) == Some(h)
  {
    hide ParseField, EncodeVarint, ValidUtf8, DecodeVarint;
    var last := StringField(3, h.contentType) + VarintField(4, h.contentLength);
    var h1 := EMPTY_HEADER.(kind := h.kind);
    SkipVarintField(1, h.kind, StringField(2, h.id) + last, EMPTY_HEADER);
    SkipStringField(2, h.id, last, h1);
    LastFieldsRoundTrip(h.contentType, h.contentLength, h1.(id := h.id));
    assert MarshalHeader(h).value == VarintField(1, h.kind) + (StringField(2, h.id) + last);
  }

  // ----- the wire format --------------------------------------------------------------------

  /** Numbers and wire types of the four fields, and their order; default values are left out. */
  lemma HeaderOnTheWire(h: HeaderData)
    requires MarshalHeader(h).Some?
    ensures MarshalHeader(h).value ==
      (if h.kind == 0 then [] else [0x08] + EncodeVarint(h.kind))
      + (if h.id == [] then [] else [0x12] + EncodeVarint(|h.id|) + h.id)
      + (if h.contentType == [] then [] else [0x1A] + EncodeVarint(|h.contentType|) + h.contentType)
      + (if h.contentLength == 0 then [] else [0x20] + EncodeVarint(h.contentLength))
  {
    assert EncodeVarint(0x08) == [0x08] && EncodeVarint(0x12) == [0x12];
    assert EncodeVarint(0x1A) == [0x1A] && EncodeVarint(0x20) == [0x20];
    hide EncodeVarint, ValidUtf8;
  }

  /** Field numbers outside their range and wire types without a meaning here are errors. */
  lemma BadTagIsNoField(num: nat, wire: nat, body: Bytes, h: HeaderData)
    requires wire < 8 && num < 0x2000_0000 && (num == 0 || wire !in {0, 1, 2, 5})
    ensures ParseField(EncodeVarint(num * 8 + wire) + body, h).None?
  {
    var tag := EncodeVarint(num * 8 + wire);
    VarintRoundTrip(num * 8 + wire, body);
    assert (tag + body)[|tag|..] == body;
    hide EncodeVarint, DecodeVarint;
  }

  /** A field as some printer may write it, by its number: known or not, with any wire type. */
  datatype Field =
    | VarintOf(num: nat, v: nat)
    | BytesOf(num: nat, s: Bytes)
    | Fixed64(num: nat, s: Bytes)
    | Fixed32(num: nat, s: Bytes)

  predicate FieldOk(f: Field) {
    && 1 <= f.num <= 0x1FFF_FFFF
    && match f
       case VarintOf(_, v) => v < 0x1_0000_0000_0000_0000
       case BytesOf(_, s) => |s| < 0x1_0000_0000_0000_0000
       case Fixed64(_, s) => |s| == 8
       case Fixed32(_, s) => |s| == 4
  }

  function PrintField(f: Field): Bytes {
    match f
    case VarintOf(num, v) => EncodeVarint(num * 8) + EncodeVarint(v)
    case Fixed64(num, s) => EncodeVarint(num * 8 + 1) + s
    case BytesOf(num, s) => EncodeVarint(num * 8 + 2) + EncodeVarint(|s|) + s
    case Fixed32(num, s) => EncodeVarint(num * 8 + 5) + s
  }

  function PrintFields(fs: seq<Field>): Bytes {
    if fs == [] then [] else PrintField(fs[0]) + PrintFields(fs[1..])
  }

  /** The last number, and the last string, under a field number. */
  function LastNumber(fs: seq<Field>, num: nat, default: nat): nat {
    if fs == [] then default
    else LastNumber(fs[1..], num, if fs[0].VarintOf? && fs[0].num == num then fs[0].v % TWO_32 else default)
  }

  function LastString(fs: seq<Field>, num: nat, default: Bytes): Bytes {
    if fs == [] then default
    else LastString(fs[1..], num, if fs[0].BytesOf? && fs[0].num == num then fs[0].s else default)
  }

  predicate BadString(f: Field) {
    f.BytesOf? && (f.num == 2 || f.num == 3) && !ValidUtf8(f.s)
  }

  lemma ParsePrinted(f: Field, rest: Bytes, h: HeaderData)
    requires FieldOk(f)
    ensures ParseField(PrintField(f) + rest, h) ==
      if BadString(f) then None
      else Some((match f
                 case VarintOf(num, v) => SetVarint(h, num, v)
                 case BytesOf(num, s) => SetBytes(h, num, s).value
                 case _ => h, rest))
  {
    hide EncodeVarint, DecodeVarint, ValidUtf8, ParseField;
    match f
    case VarintOf(num, v) =>
      ParseVarintField(num, v, rest, h);
    case BytesOf(num, s) =>
      ParseStringField(num, s, rest, h);
      assert PrintField(f) + rest == EncodeVarint(num * 8 + 2) + EncodeVarint(|s|) + s + rest;
    case Fixed64(num, s) =>
      ParseTagged(num, 1, s + rest, h);
      assert PrintField(f) + rest == EncodeVarint(num * 8 + 1) + (s + rest) && (s + rest)[8..] == rest;
    case Fixed32(num, s) =>
      ParseTagged(num, 5, s + rest, h);
      assert PrintField(f) + rest == EncodeVarint(num * 8 + 5) + (s + rest) && (s + rest)[4..] == rest;
  }

  lemma {:induction false} ParsePrintedFrom(fs: seq<Field>, h: HeaderData)
    requires forall f | f in fs :: FieldOk(f)
    ensures ParseFields(PrintFields(fs), h) ==
      if exists f | f in fs :: BadString(f) then None
      else Some(HeaderData(LastNumber(fs, 1, h.kind), LastString(fs, 2, h.id), LastString(fs, 3, h.contentType),
                           LastNumber(fs, 4, h.contentLength)))
  {
    if fs != [] {
      var rest := PrintFields(fs[1..]);
      assert FieldOk(fs[0]) && PrintField(fs[0]) != [];
      ParsePrinted(fs[0], rest, h);
      hide ParseField, PrintField, ValidUtf8;
      if !BadString(fs[0]) {
        var h' := match fs[0]
                  case VarintOf(num, v) => SetVarint(h, num, v)
                  case BytesOf(num, s) => SetBytes(h, num, s).value
                  case _ => h;
        ParsePrintedFrom(fs[1..], h');
        assert (exists f | f in fs :: BadString(f)) <==> exists f | f in fs[1..] :: BadString(f);
      } else {
        assert fs[0] in fs;
      }
    }
  }

  /**
   * The parser takes the fields in any order and however often: the last number or string under a
   * known field number counts, cut to 32 bits, unknown fields and wire types are skipped, and an
   * id or type that is not UTF-8 is an error wherever it stands.
   */
  lemma ParsesAnyFields(fs: seq<Field>)
    requires forall f | f in fs :: FieldOk(f)
    ensures UnmarshalHeader(PrintFields(fs)) ==
      if exists f | f in fs :: BadString(f) then None
      else Some(HeaderData(LastNumber(fs, 1, 0), LastString(fs, 2, []), LastString(fs, 3, []), LastNumber(fs, 4, 0)))
  {
    ParsePrintedFrom(fs, EMPTY_HEADER);
  }
}
