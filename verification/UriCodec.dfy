/**
 * encodeURIComponent and decodeURIComponent over UTF-16 code units (ECMA-262 section 19.2.6,
 * RFC 3986 section 2.1, RFC 3629 section 3). None stands for a thrown URIError.
 */
module UriCodec {
  import opened Wrappers
  import opened JsStrings

  predicate IsLead(c: CodeUnit) { 0xD800 <= c <= 0xDBFF }

  predicate IsTrail(c: CodeUnit) { 0xDC00 <= c <= 0xDFFF }

  /** uriUnreserved: the characters that stand for themselves. */
  predicate Unreserved(c: CodeUnit) {
    IsAlnum(c) || c == 45 || c == 95 || c == 46 || c == 33 || c == 126 || 39 <= c <= 42
  }

  /** No lone surrogate. */
  predicate WellFormed(s: Str) {
    s == []
    || (if IsLead(s[0]) then |s| >= 2 && IsTrail(s[1]) && WellFormed(s[2..])
        else !IsTrail(s[0]) && WellFormed(s[1..]))
  }

  type Scalar = cp: int | 0 <= cp < 0xD800 || 0xE000 <= cp < 0x11_0000

  /** The code point of a surrogate pair. */
  function PairScalar(lead: CodeUnit, trail: CodeUnit): Scalar
    requires IsLead(lead) && IsTrail(trail)
  {
    var high: int := lead - 0xD800;
    high * 0x400 + (trail - 0xDC00) + 0x1_0000
  }

  function Utf16(cp: Scalar): Str {
    if cp < 0x1_0000 then [cp]
    else [0xD800 + (cp - 0x1_0000) / 0x400, 0xDC00 + (cp - 0x1_0000) % 0x400]
  }

  type Byte = b: int | 0 <= b < 256

  function Utf8(cp: Scalar): seq<Byte> {
    if cp < 0x80 then [cp]
    else if cp < 0x800 then [0xC0 + cp / 0x40, 0x80 + cp % 0x40]
    else if cp < 0x1_0000 then [0xE0 + cp / 0x1000, 0x80 + cp / 0x40 % 0x40, 0x80 + cp % 0x40]
    else [0xF0 + cp / 0x4_0000, 0x80 + cp / 0x1000 % 0x40, 0x80 + cp / 0x40 % 0x40, 0x80 + cp % 0x40]
  }

  function HexDigit(n: int): CodeUnit
    requires 0 <= n < 16
  {
    if n < 10 then 48 + n else 55 + n
  }

  function HexValue(c: CodeUnit): Option<int> {
    if IsDigit(c) then Some(c - 48)
    else if 65 <= c <= 70 then Some(c - 55)
    else if 97 <= c <= 102 then Some(c - 87)
    else None
  }

  function Escape(b: Byte): Str { [PERCENT, HexDigit(b / 16), HexDigit(b % 16)] }

  function EscapeAll(bytes: seq<Byte>): Str {
    if bytes == [] then [] else Escape(bytes[0]) + EscapeAll(bytes[1..])
  }

  /** The encoding of the first character, and how many code units it spans. */
  function EncodeFirst(s: Str): (r: Option<(Str, nat)>)
    requires s != []
    ensures r.Some? ==> 0 < r.value.1 <= |s|
  {
    if Unreserved(s[0]) then Some(([s[0]], 1))
    else if IsTrail(s[0]) then None
    else if !IsLead(s[0]) then Some((EscapeAll(Utf8(s[0])), 1))
    else if |s| < 2 || !IsTrail(s[1]) then None
    else Some((EscapeAll(Utf8(PairScalar(s[0], s[1]))), 2))
  }

  function Encode(s: Str): Option<Str>
    decreases |s|
  {
    if s == [] then Some([])
    else
      var (text, n) :- EncodeFirst(s);
      var rest :- Encode(s[n..]);
      Some(text + rest)
  }

  /** The adapters' encode-path-segment helpers; None when they throw. */
  function EncodeSegment(value: Str): Option<Str> {
    if Trim(value) == [] then None else Encode(Trim(value))
  }

  /** The first and last scalar of each length in UTF-8 (section 3 of RFC 3629), and some escapes. */
  lemma CodesAtTheBounds()
    ensures Utf8(0x7F) == [0x7F] && Utf8(0x80) == [0xC2, 0x80] && Utf8(0x7FF) == [0xDF, 0xBF]
    ensures Utf8(0x800) == [0xE0, 0xA0, 0x80] && Utf8(0xFFFF) == [0xEF, 0xBF, 0xBF]
    ensures Utf8(0x1_0000) == [0xF0, 0x90, 0x80, 0x80] && Utf8(0x10_FFFF) == [0xF4, 0x8F, 0xBF, 0xBF]
    ensures PairScalar(0xD800, 0xDC00) == 0x1_0000 && PairScalar(0xDBFF, 0xDFFF) == 0x10_FFFF
    ensures Escape(0x2F) == U("%2F") && Escape(0xC3) == U("%C3") && Escape(0x0A) == U("%0A")
  {}

  /** A readable field that stands in a path as this segment. */
  predicate EncodesTo(field: Option<Str>, segment: Str) {
    ReadString(field).Some? && EncodeSegment(ReadString(field).value) == Some(segment)
  }

  /** A field that is absent or can stand in a path. */
  predicate Encodable(field: Option<Str>) {
    ReadString(field).Some? ==> EncodeSegment(ReadString(field).value).Some?
  }

  /** The byte written as `%XX` at the start of s. */
  function ReadEscape(s: Str): Option<Byte> {
    if |s| < 3 || s[0] != PERCENT then None
    else
      var high :- HexValue(s[1]);
      var low :- HexValue(s[2]);
      Some(high * 16 + low)
  }

  function Payload(tail: int): int { tail - 0x80 }

  /** Extends acc by the payloads of n escaped UTF-8 continuation bytes. */
  function ReadTails(s: Str, n: nat, acc: int): Option<int> {
    if n == 0 then Some(acc)
    else
      var b :- ReadEscape(s);
      if 0x80 <= b < 0xC0 then ReadTails(s[3..], n - 1, acc * 0x40 + Payload(b)) else None
  }

  /** How many continuation bytes a leading byte announces. */
  function TailCount(lead: Byte): Option<nat> {
    if lead < 0x80 then Some(0)
    else if 0xC0 <= lead < 0xE0 then Some(1)
    else if 0xE0 <= lead < 0xF0 then Some(2)
    else if 0xF0 <= lead < 0xF8 then Some(3)
    else None
  }

  /** The payload bits of a leading byte. */
  function LeadBits(lead: Byte): int {
    if lead < 0x80 then lead else if lead < 0xE0 then lead - 0xC0 else if lead < 0xF0 then lead - 0xE0 else lead - 0xF0
  }

  /** Shortest form, no surrogate, in range. */
  predicate ValidForm(cp: int, tails: nat) {
    match tails
    case 0 => 0 <= cp < 0x80
    case 1 => 0x80 <= cp < 0x800
    case 2 => 0x800 <= cp < 0xD800 || 0xE000 <= cp < 0x1_0000
    case _ => 0x1_0000 <= cp < 0x11_0000
  }

  /** One escaped code point: its value and the length of its escapes. */
  function ReadScalar(s: Str): (r: Option<(Scalar, nat)>)
    ensures r.Some? ==> 0 < r.value.1
  {
    var lead :- ReadEscape(s);
    var tails :- TailCount(lead);
    var cp :- ReadTails(s[3..], tails, LeadBits(lead));
    if ValidForm(cp, tails) then Some((cp, 3 + 3 * tails)) else None
  }

  function Decode(s: Str): Option<Str>
    decreases |s|
  {
    if s == [] then Some([])
    else if s[0] != PERCENT then
      var rest :- Decode(s[1..]);
      Some([s[0]] + rest)
    else
      var (cp, n) :- ReadScalar(s);
      if n > |s| then None
      else
        var rest :- Decode(s[n..]);
        Some(Utf16(cp) + rest)
  }

  lemma ReadEscapeOf(b: Byte, rest: Str)
    ensures ReadEscape(Escape(b) + rest) == Some(b)
    ensures (Escape(b) + rest)[3..] == rest
  {
    var s := Escape(b) + rest;
    assert s[1] == HexDigit(b / 16) && s[2] == HexDigit(b % 16);
  }

  /** What ReadTails computes. */
  function Extend(acc: int, tails: seq<Byte>): int
    decreases |tails|
  {
    if tails == [] then acc else Extend(acc * 0x40 + Payload(tails[0]), tails[1..])
  }

  lemma {:induction false} ReadTailsOf(tails: seq<Byte>, acc: int, rest: Str)
    requires forall i :: 0 <= i < |tails| ==> 0x80 <= tails[i] < 0xC0
    ensures ReadTails(EscapeAll(tails) + rest, |tails|, acc) == Some(Extend(acc, tails))
  {
    if tails == [] {
    } else {
      var text := EscapeAll(tails) + rest;
      var after := EscapeAll(tails[1..]) + rest;
      assert text == Escape(tails[0]) + after;
      ReadEscapeOf(tails[0], after);
      ReadTailsOf(tails[1..], acc * 0x40 + Payload(tails[0]), rest);
    }
  }

  lemma Base64Digits(cp: nat)
    ensures cp == cp / 0x40 * 0x40 + cp % 0x40
    ensures cp / 0x40 == cp / 0x1000 * 0x40 + cp / 0x40 % 0x40
    ensures cp / 0x1000 == cp / 0x4_0000 * 0x40 + cp / 0x1000 % 0x40
  {}

  /** The bits of a scalar are exactly those of its UTF-8 bytes. */
  lemma Utf8Bits(cp: Scalar)
    ensures TailCount(Utf8(cp)[0]) == Some(|Utf8(cp)| - 1)
    ensures forall i :: 1 <= i < |Utf8(cp)| ==> 0x80 <= Utf8(cp)[i] < 0xC0
    ensures Extend(LeadBits(Utf8(cp)[0]), Utf8(cp)[1..]) == cp
  {
    Base64Digits(cp);
    if 0x80 <= cp < 0x800 {
      TwoBytes(Utf8(cp), cp / 0x40);
    } else if 0x800 <= cp < 0x1_0000 {
      ThreeBytes(Utf8(cp), cp / 0x1000);
    } else if 0x1_0000 <= cp {
      FourBytes(Utf8(cp), cp / 0x4_0000);
    }
  }

  lemma TwoBytes(bytes: seq<Byte>, lead: int)
    requires |bytes| == 2
    ensures Extend(lead, bytes[1..]) == lead * 0x40 + Payload(bytes[1])
  {
    ExtendOne(lead, bytes[1], []);
    assert bytes[1..] == [bytes[1]];
  }

  lemma ThreeBytes(bytes: seq<Byte>, lead: int)
    requires |bytes| == 3
    ensures Extend(lead, bytes[1..]) == (lead * 0x40 + Payload(bytes[1])) * 0x40 + Payload(bytes[2])
  {
    ExtendTwo(lead, bytes[1], bytes[2], []);
    assert bytes[1..] == [bytes[1], bytes[2]];
  }

  lemma FourBytes(bytes: seq<Byte>, lead: int)
    requires |bytes| == 4
    ensures Extend(lead, bytes[1..])
      == ((lead * 0x40 + Payload(bytes[1])) * 0x40 + Payload(bytes[2])) * 0x40 + Payload(bytes[3])
  {
    ExtendTwo(lead, bytes[1], bytes[2], [bytes[3]]);
    ExtendOne((lead * 0x40 + Payload(bytes[1])) * 0x40 + Payload(bytes[2]), bytes[3], []);
    assert bytes[1..] == [bytes[1], bytes[2]] + [bytes[3]];
  }

  lemma ExtendTwo(acc: int, a: Byte, b: Byte, rest: seq<Byte>)
    ensures Extend(acc, [a, b] + rest) == Extend((acc * 0x40 + Payload(a)) * 0x40 + Payload(b), rest)
    ensures [a, b] + [] == [a, b]
  {
    assert [a, b] + rest == [a] + ([b] + rest);
    ExtendOne(acc, a, [b] + rest);
    ExtendOne(acc * 0x40 + Payload(a), b, rest);
  }

  lemma ExtendOne(acc: int, tail: Byte, rest: seq<Byte>)
    ensures Extend(acc, [tail] + rest) == Extend(acc * 0x40 + Payload(tail), rest)
    ensures [tail] + [] == [tail]
  {
    assert ([tail] + rest)[1..] == rest;
  }

  lemma {:induction false} EscapeAllLength(bytes: seq<Byte>)
    ensures |EscapeAll(bytes)| == 3 * |bytes|
  {
    if bytes == [] {
    } else {
      EscapeAllLength(bytes[1..]);
    }
  }

  /** Reading undoes escaping, for every scalar value. */
  lemma ReadScalarOf(cp: Scalar, rest: Str)
    ensures ReadScalar(EscapeAll(Utf8(cp)) + rest) == Some((cp, |EscapeAll(Utf8(cp))|))
    ensures EscapeAll(Utf8(cp)) != [] && EscapeAll(Utf8(cp))[0] == PERCENT
  {
    var bytes := Utf8(cp);
    var after := EscapeAll(bytes[1..]) + rest;
    assert EscapeAll(bytes) + rest == Escape(bytes[0]) + after;
    ReadEscapeOf(bytes[0], after);
    Utf8Bits(cp);
    ReadTailsOf(bytes[1..], LeadBits(bytes[0]), rest);
    EscapeAllLength(bytes);
  }

  lemma DecodeEscaped(cp: Scalar, rest: Str)
    requires Decode(rest).Some?
    ensures Decode(EscapeAll(Utf8(cp)) + rest) == Some(Utf16(cp) + Decode(rest).value)
  {
    var escapes := EscapeAll(Utf8(cp));
    ReadScalarOf(cp, rest);
    assert (escapes + rest)[|escapes|..] == rest;
  }

  /** encodeURIComponent fails exactly on lone surrogates. */
  lemma {:induction false} EncodeDefined(s: Str)
    ensures Encode(s).Some? <==> WellFormed(s)
    decreases |s|
  {
    if s != [] && EncodeFirst(s).Some? {
      EncodeDefined(s[EncodeFirst(s).value.1..]);
    }
  }

  lemma PairUnits(lead: CodeUnit, trail: CodeUnit)
    requires IsLead(lead) && IsTrail(trail)
    ensures Utf16(PairScalar(lead, trail)) == [lead, trail]
  {}

  lemma DecodeLiteral(c: CodeUnit, rest: Str)
    requires c != PERCENT && Decode(rest).Some?
    ensures Decode([c] + rest) == Some([c] + Decode(rest).value)
  {
    assert ([c] + rest)[1..] == rest;
  }

  /** Decoding the first character's encoding gives that character back. */
  lemma DecodeFirst(s: Str, rest: Str)
    requires s != [] && EncodeFirst(s).Some?
    requires Decode(rest).Some?
    ensures Decode(EncodeFirst(s).value.0 + rest) == Some(s[..EncodeFirst(s).value.1] + Decode(rest).value)
  {
    if Unreserved(s[0]) {
      DecodeLiteral(s[0], rest);
      assert s[..1] == [s[0]];
    } else if IsLead(s[0]) {
      DecodeEscaped(PairScalar(s[0], s[1]), rest);
      PairUnits(s[0], s[1]);
      assert s[..2] == [s[0], s[1]];
    } else {
      DecodeEscaped(s[0], rest);
      assert s[..1] == [s[0]];
    }
  }

  /** Decoding undoes encoding on every well-formed string. */
  lemma {:induction false} DecodeEncode(s: Str)
    requires Encode(s).Some?
    ensures Decode(Encode(s).value) == Some(s)
    decreases |s|
  {
    if s == [] {
    } else {
      var (text, n) := EncodeFirst(s).value;
      DecodeEncode(s[n..]);
      DecodeFirst(s, Encode(s[n..]).value);
      assert Encode(s).value == text + Encode(s[n..]).value;
      assert s[..n] + s[n..] == s;
    }
  }

  lemma EncodeInjective(a: Str, b: Str)
    requires Encode(a).Some? && Encode(a) == Encode(b)
    ensures a == b
  {
    DecodeEncode(a);
    DecodeEncode(b);
  }

  /** The characters a path segment may hold after encoding. */
  predicate Encoded(s: Str) {
    forall i :: 0 <= i < |s| ==> Unreserved(s[i]) || s[i] == PERCENT
  }

  lemma {:induction false} EscapeAllEncoded(bytes: seq<Byte>)
    ensures Encoded(EscapeAll(bytes))
  {
    if bytes == [] {
    } else {
      EscapeAllEncoded(bytes[1..]);
    }
  }

  /** Encoding leaves only unreserved characters and escapes: no slash, no whitespace. */
  lemma {:induction false} EncodeAlphabet(s: Str)
    requires Encode(s).Some?
    ensures Encoded(Encode(s).value)
    ensures s != [] ==> Encode(s).value != []
    decreases |s|
  {
    if s == [] {
    } else {
      EncodeAlphabet(s[EncodeFirst(s).value.1..]);
      if !Unreserved(s[0]) {
        var cp := if IsLead(s[0]) then PairScalar(s[0], s[1]) else s[0];
        EscapeAllEncoded(Utf8(cp));
        EscapeAllLength(Utf8(cp));
      }
    }
  }

  /** Text made of unreserved characters encodes to itself. */
  lemma {:induction false} EncodeUnreserved(s: Str)
    requires forall i :: 0 <= i < |s| ==> Unreserved(s[i])
    ensures Encode(s) == Some(s)
  {
    if s == [] {
    } else {
      EncodeUnreserved(s[1..]);
      assert [s[0]] + s[1..] == s;
    }
  }
}
