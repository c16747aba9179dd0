/**
 * Unpadded base64url (section 5 of RFC 4648), as base64UrlEncode and base64UrlDecode build it
 * from btoa and atob (packages/asana/src/thread.ts:128-141).
 */
module Base64Url {
  import opened Wrappers
  import opened JsStrings

  type Byte = b: int | 0 <= b < 256

  type Bytes = seq<Byte>

  const PAD: CodeUnit := 61

  type Sextet = n: int | 0 <= n < 64

  function Letter(n: Sextet): CodeUnit {
    if n < 26 then 65 + n else if n < 52 then 71 + n else if n < 62 then n - 4 else if n == 62 then 43 else 47
  }

  function ValueOf(c: CodeUnit): Option<Sextet> {
    if IsUpper(c) then Some(c - 65)
    else if IsLower(c) then Some(c - 71)
    else if IsDigit(c) then Some(c + 4)
    else if c == 43 then Some(62)
    else if c == 47 then Some(63)
    else None
  }

  /** The four letters of a group of three bytes. */
  function Group(a: Byte, b: Byte, c: Byte): Str {
    [Letter(a / 4), Letter(a % 4 * 16 + b / 16), Letter(b % 16 * 4 + c / 64), Letter(c % 64)]
  }

  /** `btoa` on a binary string. */
  function Btoa(bytes: Bytes): Str {
    if bytes == [] then []
    else if |bytes| == 1 then [Letter(bytes[0] / 4), Letter(bytes[0] % 4 * 16), PAD, PAD]
    else if |bytes| == 2 then
      [Letter(bytes[0] / 4), Letter(bytes[0] % 4 * 16 + bytes[1] / 16), Letter(bytes[1] % 16 * 4), PAD]
    else
      Group(bytes[0], bytes[1], bytes[2]) + Btoa(bytes[3..])
  }

  /** The bytes of a text without padding; bits that do not fill a byte are dropped. */
  function Letters(s: Str): Option<Bytes> {
    if s == [] then Some([])
    else if |s| == 1 then None
    else
      var a :- ValueOf(s[0]);
      var b :- ValueOf(s[1]);
      if |s| == 2 then Some([a * 4 + b / 16])
      else
        var c :- ValueOf(s[2]);
        if |s| == 3 then Some([a * 4 + b / 16, b % 16 * 16 + c / 4])
        else
          var d :- ValueOf(s[3]);
          var rest :- Letters(s[4..]);
          Some([a * 4 + b / 16, b % 16 * 16 + c / 4, c % 4 * 64 + d] + rest)
  }

  predicate IsAsciiSpace(c: CodeUnit) { c == 9 || c == 10 || c == 12 || c == 13 || c == 32 }

  function WithoutSpaces(s: Str): Str {
    if s == [] then [] else (if IsAsciiSpace(s[0]) then [] else [s[0]]) + WithoutSpaces(s[1..])
  }

  /** Up to two padding signs off a text whose length is a multiple of four. */
  function WithoutPadding(s: Str): Str {
    if |s| == 0 || |s| % 4 != 0 || s[|s| - 1] != PAD then s
    else if s[|s| - 2] == PAD then s[..|s| - 2]
    else s[..|s| - 1]
  }

  /** `atob`; None when it throws. */
  function Atob(s: Str): Option<Bytes> { Letters(WithoutPadding(WithoutSpaces(s))) }

  function StripPads(s: Str): Str {
    if s != [] && s[|s| - 1] == PAD then StripPads(s[..|s| - 1]) else s
  }

  function UrlUnit(c: CodeUnit): CodeUnit { if c == 43 then DASH else if c == 47 then UNDERSCORE else c }

  function PlainUnit(c: CodeUnit): CodeUnit { if c == DASH then 43 else if c == UNDERSCORE then 47 else c }

  function Mapped(s: Str, f: CodeUnit -> CodeUnit): (r: Str)
    ensures |r| == |s| && forall i :: 0 <= i < |s| ==> r[i] == f(s[i])
  {
    seq(|s|, i requires 0 <= i < |s| => f(s[i]))
  }

  /** `padEnd` to a multiple of four. */
  function Padded(s: Str): Str { s + seq((4 - |s| % 4) % 4, i => PAD) }

  function Encode(bytes: Bytes): Str { StripPads(Mapped(Btoa(bytes), UrlUnit)) }

  /** None when `atob` throws. */
  function Decode(s: Str): Option<Bytes> { Atob(Padded(Mapped(s, PlainUnit))) }

  /** base64UrlEncode, from the bytes of the text on. */
  method Base64UrlEncode(bytes: Bytes) returns (text: Str)
    ensures text == Encode(bytes)
  {
    var binary: Bytes := [];
    for i := 0 to |bytes|
      invariant binary == bytes[..i]
    {
      binary := binary + [bytes[i]];
    }
    assert binary == bytes;
    return StripPads(Mapped(Btoa(binary), UrlUnit));
  }

  // ---------------------------------------------------------------------------
  // Round trip
  // ---------------------------------------------------------------------------

  lemma LetterValue(n: Sextet)
    ensures ValueOf(Letter(n)) == Some(n)
    ensures Letter(n) != PAD && !IsSpace(Letter(n)) && Letter(n) != DASH && Letter(n) != UNDERSCORE
  {}

  lemma Bits(a: Byte, b: Byte, c: Byte)
    ensures a / 4 * 4 + (a % 4 * 16 + b / 16) / 16 == a
    ensures (a % 4 * 16 + b / 16) % 16 * 16 + (b % 16 * 4 + c / 64) / 4 == b
    ensures (b % 16 * 4 + c / 64) % 4 * 64 + c % 64 == c
    ensures (a % 4 * 16) / 16 == a % 4 && (b % 16 * 4) / 4 == b % 16
  {}

  /** How many padding signs btoa adds. */
  function Pads(bytes: Bytes): nat { (3 - |bytes| % 3) % 3 }

  predicate IsLetter(c: CodeUnit) { ValueOf(c).Some? }

  lemma GroupLetters(a: Byte, b: Byte, c: Byte)
    ensures |Group(a, b, c)| == 4 && forall i :: 0 <= i < 4 ==> IsLetter(Group(a, b, c)[i])
  {
    LetterValue(a / 4);
    LetterValue(a % 4 * 16 + b / 16);
    LetterValue(b % 16 * 4 + c / 64);
    LetterValue(c % 64);
  }

  lemma ShapeStep(group: Str, s: Str, pads: nat)
    requires |group| == 4 && pads <= |s| && |s| % 4 == 0
    requires forall i :: 0 <= i < 4 ==> IsLetter(group[i])
    requires forall i :: 0 <= i < |s| - pads ==> IsLetter(s[i])
    requires forall i :: |s| - pads <= i < |s| ==> s[i] == PAD
    ensures |group + s| % 4 == 0
    ensures forall i :: 0 <= i < |group + s| - pads ==> IsLetter((group + s)[i])
    ensures forall i :: |group + s| - pads <= i < |group + s| ==> (group + s)[i] == PAD
  {}

  /** btoa is letters followed by padding, in whole groups of four. */
  lemma {:induction false} BtoaShape(bytes: Bytes)
    ensures |Btoa(bytes)| % 4 == 0 && Pads(bytes) <= |Btoa(bytes)|
    ensures forall i :: 0 <= i < |Btoa(bytes)| - Pads(bytes) ==> IsLetter(Btoa(bytes)[i])
    ensures forall i :: |Btoa(bytes)| - Pads(bytes) <= i < |Btoa(bytes)| ==> Btoa(bytes)[i] == PAD
  {
    if |bytes| >= 3 {
      BtoaShape(bytes[3..]);
      GroupLetters(bytes[0], bytes[1], bytes[2]);
      assert Pads(bytes) == Pads(bytes[3..]);
      ShapeStep(Group(bytes[0], bytes[1], bytes[2]), Btoa(bytes[3..]), Pads(bytes));
    } else if |bytes| == 2 {
      LetterValue(bytes[0] / 4);
      LetterValue(bytes[0] % 4 * 16 + bytes[1] / 16);
      LetterValue(bytes[1] % 16 * 4);
    } else if |bytes| == 1 {
      LetterValue(bytes[0] / 4);
      LetterValue(bytes[0] % 4 * 16);
    }
  }

  /** The letters of btoa, without its padding. */
  function Raw(bytes: Bytes): Str
  {
    BtoaShape(bytes);
    Btoa(bytes)[..|Btoa(bytes)| - Pads(bytes)]
  }

  lemma DropEnd(x: Str, y: Str, n: nat)
    requires n <= |y|
    ensures (x + y)[..|x + y| - n] == x + y[..|y| - n]
  {}

  lemma RawStep(bytes: Bytes)
    requires |bytes| >= 3
    ensures Raw(bytes) == Group(bytes[0], bytes[1], bytes[2]) + Raw(bytes[3..])
  {
    BtoaShape(bytes[3..]);
    assert Pads(bytes) == Pads(bytes[3..]);
    DropEnd(Group(bytes[0], bytes[1], bytes[2]), Btoa(bytes[3..]), Pads(bytes));
  }

  lemma GroupOfThree(a: Byte, b: Byte, c: Byte, s: Str, rest: Str)
    requires s == Group(a, b, c) + rest
    requires Letters(rest).Some?
    ensures Letters(s) == Some([a, b, c] + Letters(rest).value)
  {
    LetterValue(a / 4);
    LetterValue(a % 4 * 16 + b / 16);
    LetterValue(b % 16 * 4 + c / 64);
    LetterValue(c % 64);
    Bits(a, b, c);
    assert s[4..] == rest;
  }

  /** Reading the letters gives the bytes back. */
  lemma {:induction false} LettersOfRaw(bytes: Bytes)
    ensures Letters(Raw(bytes)) == Some(bytes)
  {
    if bytes == [] {
    } else if |bytes| == 1 {
      LetterValue(bytes[0] / 4);
      LetterValue(bytes[0] % 4 * 16);
      Bits(bytes[0], 0, 0);
      assert Raw(bytes) == [Letter(bytes[0] / 4), Letter(bytes[0] % 4 * 16)];
      assert bytes == [bytes[0]];
    } else if |bytes| == 2 {
      LetterValue(bytes[0] / 4);
      LetterValue(bytes[0] % 4 * 16 + bytes[1] / 16);
      LetterValue(bytes[1] % 16 * 4);
      Bits(bytes[0], bytes[1], 0);
      assert Raw(bytes) == [Letter(bytes[0] / 4), Letter(bytes[0] % 4 * 16 + bytes[1] / 16), Letter(bytes[1] % 16 * 4)];
      assert bytes == [bytes[0], bytes[1]];
    } else {
      LettersOfRaw(bytes[3..]);
      RawStep(bytes);
      GroupOfThree(bytes[0], bytes[1], bytes[2], Raw(bytes), Raw(bytes[3..]));
      assert [bytes[0], bytes[1], bytes[2]] + bytes[3..] == bytes;
    }
  }

  lemma {:induction false} StripPadsOf(s: Str, n: nat)
    requires n <= |s| && (forall i :: |s| - n <= i < |s| ==> s[i] == PAD)
    requires n < |s| ==> s[|s| - n - 1] != PAD
    ensures StripPads(s) == s[..|s| - n]
  {
    if n > 0 {
      StripPadsOf(s[..|s| - 1], n - 1);
      assert s[..|s| - 1][..|s| - n] == s[..|s| - n];
    } else {
      assert s[..|s|] == s;
    }
  }

  /** Encoding is the letters in the URL alphabet. */
  lemma EncodeIsRaw(bytes: Bytes)
    ensures Encode(bytes) == Mapped(Raw(bytes), UrlUnit)
  {
    BtoaShape(bytes);
    var s, n := Mapped(Btoa(bytes), UrlUnit), Pads(bytes);
    assert forall i :: 0 <= i < |s| - n ==> IsLetter(Btoa(bytes)[i]) && s[i] != PAD;
    StripPadsOf(s, n);
  }

  lemma PlainOfUrl(s: Str)
    requires forall i :: 0 <= i < |s| ==> IsLetter(s[i])
    ensures Mapped(Mapped(s, UrlUnit), PlainUnit) == s
  {}

  lemma {:induction false} NoSpaces(s: Str)
    requires forall i :: 0 <= i < |s| ==> !IsAsciiSpace(s[i])
    ensures WithoutSpaces(s) == s
  {
    if s == [] {
    } else {
      NoSpaces(s[1..]);
      assert s == [s[0]] + s[1..];
    }
  }

  lemma RawLetters(bytes: Bytes)
    ensures forall i :: 0 <= i < |Raw(bytes)| ==> IsLetter(Raw(bytes)[i])
    ensures |Raw(bytes)| % 4 == if |bytes| % 3 == 0 then 0 else |bytes| % 3 + 1
  {
    BtoaShape(bytes);
    assert |Raw(bytes)| == |Btoa(bytes)| - Pads(bytes);
    assert forall i :: 0 <= i < |Raw(bytes)| ==> Raw(bytes)[i] == Btoa(bytes)[i];
  }

  lemma LetterPlain(c: CodeUnit)
    ensures IsLetter(c) ==> c != PAD && !IsAsciiSpace(c)
  {}

  lemma PadsComeOff(s: Str)
    requires |s| % 4 != 1 && (s != [] ==> s[|s| - 1] != PAD)
    ensures WithoutPadding(Padded(s)) == s
  {
    var p := Padded(s);
    if |s| % 4 == 0 {
      assert p == s;
    } else if |s| % 4 == 3 {
      assert p == s + [PAD] && p[..|p| - 1] == s;
    } else {
      assert p == s + [PAD, PAD] && p[..|p| - 2] == s;
    }
  }

  /** Padding the letters and taking the padding off again. */
  lemma PaddingOff(s: Str)
    requires |s| % 4 != 1 && forall i :: 0 <= i < |s| ==> IsLetter(s[i])
    ensures WithoutPadding(WithoutSpaces(Padded(s))) == s
  {
    forall i | 0 <= i < |s| ensures s[i] != PAD && !IsAsciiSpace(s[i]) { LetterPlain(s[i]); }
    PadsComeOff(s);
    NoSpaces(Padded(s));
  }

  /** Decoding undoes encoding, for every byte sequence. */
  lemma DecodeEncode(bytes: Bytes)
    ensures Decode(Encode(bytes)) == Some(bytes)
  {
    EncodeIsRaw(bytes);
    RawLetters(bytes);
    PlainOfUrl(Raw(bytes));
    PaddingOff(Raw(bytes));
    LettersOfRaw(bytes);
  }

  /** The encoding of at least one byte is a non-empty text of the URL alphabet. */
  lemma EncodeAlphabet(bytes: Bytes)
    ensures forall i :: 0 <= i < |Encode(bytes)| ==>
      IsAlnum(Encode(bytes)[i]) || Encode(bytes)[i] == DASH || Encode(bytes)[i] == UNDERSCORE
    ensures bytes != [] ==> Encode(bytes) != []
  {
    EncodeIsRaw(bytes);
    RawLetters(bytes);
    if bytes != [] && Encode(bytes) == [] { LettersOfRaw(bytes); }
  }

  /** Vectors of section 10 of RFC 4648, unpadded, and the two letters that section 5 changes. */
  lemma KnownVectors()
    ensures Encode([102]) == U("Zg") && Encode([102, 111]) == U("Zm8") && Encode([102, 111, 111]) == U("Zm9v")
    ensures Encode([251, 255]) == U("-_8")
  {
    StrippedPads(U("Zg"), [PAD, PAD]);
    StrippedPads(U("Zm8"), [PAD]);
    StrippedPads(U("Zm9v"), []);
    StrippedPads(U("-_8"), [PAD]);
    assert Btoa([102, 111, 111]) == Group(102, 111, 111) + Btoa([]);
    assert Mapped(Btoa([102]), UrlUnit) == U("Zg") + [PAD, PAD];
    assert Mapped(Btoa([102, 111]), UrlUnit) == U("Zm8") + [PAD];
    assert Mapped(Btoa([102, 111, 111]), UrlUnit) == U("Zm9v") + [];
    assert Mapped(Btoa([251, 255]), UrlUnit) == U("-_8") + [PAD];
  }

  lemma {:induction false} StrippedPads(text: Str, pads: Str)
    requires text != [] && text[|text| - 1] != PAD && forall i :: 0 <= i < |pads| ==> pads[i] == PAD
    ensures StripPads(text + pads) == text
  {
    if pads == [] {
      assert text + pads == text;
    } else {
      assert (text + pads)[..|text + pads| - 1] == text + pads[..|pads| - 1];
      StrippedPads(text, pads[..|pads| - 1]);
    }
  }
}
