/**
 * slugifyStatusName: the by-state directory name of a Confluence status, built character by
 * character (packages/confluence/src/path-mapper.ts:145-172), as a decodable prefix code.
 */
module StatusSlugs {
  import opened Wrappers
  import opened JsStrings
  import opened UriCodec
  import opened TextWords

  /** The Unicode services the slugs rely on; nothing is assumed of them. */
  datatype Unicode = Unicode(nfkd: Str -> Str, nfc: Str -> Str, lower: Str -> Str)

  const SPACE: CodeUnit := 32

  /**
   * The text with every run of whitespace replaced by one space; a run is dropped where the
   * text is bare: at its start.
   */
  function Collapse(text: Str, bare: bool := true): Str {
    if text == [] then []
    else if IsSpace(text[0]) then (if bare then [] else [SPACE]) + Collapse(text[1..], true)
    else [text[0]] + Collapse(text[1..], false)
  }

  /** The status as the directory name sees it: trimmed, normalised, lowercased, collapsed. */
  function Canon(status: Str, u: Unicode): Str { Collapse(u.lower(u.nfc(Trim(status)))) }

  /** The code of the first character of a collapsed text, and how many code units it spans. */
  function CodeFirst(canon: Str): (r: Option<(Str, nat)>)
    requires canon != []
    ensures r.Some? ==> 0 < r.value.1 <= |canon|
  {
    if canon[0] == SPACE then Some(([DASH], 1))
    else if canon[0] == DASH then Some((U("%2D"), 1))
    else EncodeFirst(canon)
  }

  function Code(canon: Str): Option<Str>
    decreases |canon|
  {
    if canon == [] then Some([])
    else
      var (text, n) :- CodeFirst(canon);
      var rest :- Code(canon[n..]);
      Some(text + rest)
  }

  /** The inverse code: a dash is a space, an escape is its character. */
  function ReadCode(s: Str): Option<Str>
    decreases |s|
  {
    if s == [] then Some([])
    else if s[0] == DASH then
      var rest :- ReadCode(s[1..]);
      Some([SPACE] + rest)
    else if s[0] != PERCENT then
      var rest :- ReadCode(s[1..]);
      Some([s[0]] + rest)
    else
      var (cp, n) :- ReadScalar(s);
      if n > |s| then None
      else
        var rest :- ReadCode(s[n..]);
        Some(Utf16(cp) + rest)
  }

  /** What slugifyStatusName returns; None when it throws. */
  function StatusSlug(status: Str, u: Unicode): Option<Str> {
    if Trim(status) == [] then None
    else
      var slug :- Code(Canon(status, u));
      if Trim(slug) == [] then None else Some(Trim(slug))
  }

  // ---------------------------------------------------------------------------
  // The loop
  // ---------------------------------------------------------------------------

  function After(slug: Str, rest: Option<Str>): Option<Str> {
    match rest case Some(text) => Some(slug + text) case None => None
  }

  lemma AfterNothing(rest: Option<Str>)
    ensures After([], rest) == rest
  {
    if rest.Some? { assert [] + rest.value == rest.value; }
  }

  lemma AfterTwice(a: Str, b: Str, rest: Option<Str>)
    ensures After(a, After(b, rest)) == After(a + b, rest)
  {
    if rest.Some? { assert a + (b + rest.value) == (a + b) + rest.value; }
  }

  /** `String.prototype[Symbol.iterator]`: how many code units the character at the start spans. */
  function CharLength(text: Str): (n: nat)
    requires text != []
    ensures 0 < n <= |text|
  {
    if |text| >= 2 && IsLead(text[0]) && IsTrail(text[1]) then 2 else 1
  }

  /** What the loop still has to append. */
  function Rest(text: Str, i: nat, bare: bool): Option<Str>
    requires i <= |text|
  {
    Code(Collapse(text[i..], bare))
  }

  lemma RestAtSpace(text: Str, i: nat, bare: bool)
    requires i < |text| && IsSpace(text[i])
    ensures CharLength(text[i..]) == 1
    ensures Rest(text, i, bare) == After(if bare then [] else [DASH], Rest(text, i + 1, true))
  {
    assert text[i..][1..] == text[i + 1..];
    var after := Collapse(text[i + 1..], true);
    if bare {
      AfterNothing(Rest(text, i + 1, true));
      assert Collapse(text[i..], bare) == [] + after == after;
    } else {
      assert Collapse(text[i..], bare) == [SPACE] + after;
      assert ([SPACE] + after)[1..] == after;
    }
  }

  lemma RestAtCharacter(text: Str, i: nat, bare: bool)
    requires i < |text| && !IsSpace(text[i])
    ensures CodeFirst(text[i..]).None? ==> Rest(text, i, bare).None?
    ensures CodeFirst(text[i..]).Some? ==>
      && CodeFirst(text[i..]).value.1 == CharLength(text[i..])
      && Rest(text, i, bare) == After(CodeFirst(text[i..]).value.0, Rest(text, i + CharLength(text[i..]), false))
  {
    var here, next := text[i..], Collapse(text[i + 1..], false);
    assert here[1..] == text[i + 1..];
    var canon := Collapse(here, bare);
    assert canon == [text[i]] + next;
    if CharLength(here) == 2 {
      assert text[i + 1..][1..] == text[i + 2..];
      assert canon[2..] == Collapse(text[i + 2..], false);
      assert canon[1] == text[i + 1];
    } else {
      assert canon[1..] == next;
      if next != [] { assert next[0] == SPACE || next[0] == text[i + 1]; }
    }
  }

  /** What one character that is not whitespace appends; None when encoding it throws. */
  function Piece(character: Str): Option<Str> {
    if |character| == 1 && (IsLower(character[0]) || IsDigit(character[0])) then Some(character)
    else if character == [DASH] then Some(U("%2D"))
    else Encode(character)
  }

  lemma EncodeOne(c: Str)
    requires c != [] && CharLength(c) == |c|
    ensures Encode(c) == match EncodeFirst(c) case None => None case Some((code, n)) => Some(code)
  {
    if EncodeFirst(c).Some? {
      assert c[|c|..] == [] && EncodeFirst(c).value.0 + [] == EncodeFirst(c).value.0;
    }
  }

  /** The three ways of appending a character are one code. */
  lemma PieceIsCode(text: Str)
    requires text != [] && !IsSpace(text[0])
    ensures
      var c := text[..CharLength(text)];
      CodeFirst(text) == match Piece(c) case None => None case Some(code) => Some((code, |c|))
  {
    var c := text[..CharLength(text)];
    EncodeOne(c);
    assert EncodeFirst(c) == EncodeFirst(text);
    assert c[0] == text[0];
    if |c| == 1 { assert c == [text[0]]; }
  }

  lemma PieceNotEmpty(character: Str)
    requires character != [] && Piece(character).Some?
    ensures Piece(character).value != []
  {
    if Encode(character).Some? { EncodeAlphabet(character); }
  }

  lemma SpaceStep(text: Str, i: nat, bare: bool, slug: Str)
    requires i < |text| && IsSpace(text[i])
    ensures CharLength(text[i..]) == 1
    ensures After(slug, Rest(text, i, bare)) == After(if bare then slug else slug + [DASH], Rest(text, i + 1, true))
  {
    RestAtSpace(text, i, bare);
    AfterTwice(slug, if bare then [] else [DASH], Rest(text, i + 1, true));
    assert slug + [] == slug;
  }

  lemma CharacterStep(text: Str, i: nat, bare: bool, slug: Str)
    requires i < |text| && !IsSpace(text[i])
    ensures
      var c := text[i..][..CharLength(text[i..])];
      After(slug, Rest(text, i, bare)) ==
        match Piece(c) case None => None case Some(code) => After(slug + code, Rest(text, i + |c|, false))
  {
    var c := text[i..][..CharLength(text[i..])];
    RestAtCharacter(text, i, bare);
    PieceIsCode(text[i..]);
    if Piece(c).Some? { AfterTwice(slug, Piece(c).value, Rest(text, i + |c|, false)); }
  }

  method SlugifyStatusName(status: Str, u: Unicode) returns (result: Option<Str>)
    ensures result == StatusSlug(status, u)
  {
    var trimmed := Trim(status);
    if trimmed == [] { return None; }
    var text := u.lower(u.nfc(trimmed));
    var slug, previousWasSeparator, i := [], false, 0;
    assert text[0..] == text;
    AfterNothing(Code(Collapse(text)));
    while i < |text|
      invariant i <= |text|
      invariant After(slug, Rest(text, i, previousWasSeparator || slug == [])) == Code(Collapse(text))
    {
      var character := text[i..][..CharLength(text[i..])];
      if IsSpace(character[0]) {
        SpaceStep(text, i, previousWasSeparator || slug == [], slug);
        if !previousWasSeparator && |slug| > 0 { slug := slug + [DASH]; }
        previousWasSeparator := true;
      } else {
        CharacterStep(text, i, previousWasSeparator || slug == [], slug);
        previousWasSeparator := false;
        var piece := Piece(character);
        if piece.None? { return None; }
        PieceNotEmpty(character);
        slug := slug + piece.value;
      }
      i := i + |character|;
    }
    assert text[i..] == [] && slug + [] == slug;
    return if Trim(slug) == [] then None else Some(Trim(slug));
  }

  // ---------------------------------------------------------------------------
  // A prefix code
  // ---------------------------------------------------------------------------

  lemma ReadLiteral(c: CodeUnit, rest: Str)
    requires c != PERCENT && ReadCode(rest).Some?
    ensures ReadCode([c] + rest) == Some([if c == DASH then SPACE else c] + ReadCode(rest).value)
  {
    assert ([c] + rest)[1..] == rest;
  }

  lemma ReadEscaped(cp: Scalar, rest: Str)
    requires ReadCode(rest).Some?
    ensures ReadCode(EscapeAll(Utf8(cp)) + rest) == Some(Utf16(cp) + ReadCode(rest).value)
  {
    var escapes := EscapeAll(Utf8(cp));
    ReadScalarOf(cp, rest);
    assert (escapes + rest)[|escapes|..] == rest;
  }

  lemma ReadFirst(canon: Str, rest: Str)
    requires canon != [] && CodeFirst(canon).Some? && ReadCode(rest).Some?
    ensures ReadCode(CodeFirst(canon).value.0 + rest) == Some(canon[..CodeFirst(canon).value.1] + ReadCode(rest).value)
  {
    if canon[0] == SPACE {
      ReadLiteral(DASH, rest);
      assert canon[..1] == [SPACE];
    } else if canon[0] == DASH {
      assert Utf8(45) == [45] && EscapeAll([45]) == Escape(45) + EscapeAll([45][1..]) == U("%2D");
      ReadEscaped(45, rest);
      assert canon[..1] == [DASH];
    } else if Unreserved(canon[0]) {
      ReadLiteral(canon[0], rest);
      assert canon[..1] == [canon[0]];
    } else if IsLead(canon[0]) {
      ReadEscaped(PairScalar(canon[0], canon[1]), rest);
      PairUnits(canon[0], canon[1]);
      assert canon[..2] == [canon[0], canon[1]];
    } else {
      ReadEscaped(canon[0], rest);
      assert canon[..1] == [canon[0]];
    }
  }

  /** The code can be read back. */
  lemma {:induction false} ReadOfCode(canon: Str)
    requires Code(canon).Some?
    ensures ReadCode(Code(canon).value) == Some(canon)
    decreases |canon|
  {
    if canon == [] {
    } else {
      var n := CodeFirst(canon).value.1;
      ReadOfCode(canon[n..]);
      ReadFirst(canon, Code(canon[n..]).value);
      assert canon[..n] + canon[n..] == canon;
    }
  }

  lemma {:induction false} CodeAlphabet(canon: Str)
    requires Code(canon).Some?
    ensures Encoded(Code(canon).value)
    ensures canon != [] ==> Code(canon).value != []
    decreases |canon|
  {
    if canon == [] {
    } else {
      CodeAlphabet(canon[CodeFirst(canon).value.1..]);
      if canon[0] != SPACE && canon[0] != DASH && !Unreserved(canon[0]) {
        var cp := if IsLead(canon[0]) then PairScalar(canon[0], canon[1]) else canon[0];
        EscapeAllEncoded(Utf8(cp));
        EscapeAllLength(Utf8(cp));
      }
    }
  }

  lemma {:induction false} CodeDefined(canon: Str)
    ensures Code(canon).Some? <==> WellFormed(canon)
    decreases |canon|
  {
    if canon != [] && CodeFirst(canon).Some? { CodeDefined(canon[CodeFirst(canon).value.1..]); }
  }

  lemma EncodedTight(s: Str)
    requires Encoded(s)
    ensures Trim(s) == s
  {
    TrimOfTight(s);
  }

  /**
   * The slug is the code of the canonical status, and exists exactly when that has no lone surrogate and
   * is not empty.
   */
  lemma StatusSlugDefined(status: Str, u: Unicode)
    requires Trim(status) != []
    ensures StatusSlug(status, u).Some? <==> Canon(status, u) != [] && WellFormed(Canon(status, u))
    ensures StatusSlug(status, u).Some? ==> StatusSlug(status, u) == Code(Canon(status, u))
    ensures StatusSlug(status, u).Some? ==> Encoded(StatusSlug(status, u).value) && StatusSlug(status, u).value != []
  {
    CodeDefined(Canon(status, u));
    if Code(Canon(status, u)).Some? {
      CodeAlphabet(Canon(status, u));
      EncodedTight(Code(Canon(status, u)).value);
    }
  }

  /**
   * Two statuses have the same slug exactly when they are the same after trimming, normalising,
   * lowercasing and collapsing.
   */
  lemma SameSlugSameStatus(a: Str, b: Str, u: Unicode)
    requires StatusSlug(a, u).Some? && StatusSlug(b, u).Some?
    ensures StatusSlug(a, u) == StatusSlug(b, u) <==> Canon(a, u) == Canon(b, u)
    ensures ReadCode(StatusSlug(a, u).value) == Some(Canon(a, u))
  {
    StatusSlugDefined(a, u);
    StatusSlugDefined(b, u);
    ReadOfCode(Canon(a, u));
    ReadOfCode(Canon(b, u));
  }

  predicate NotSpace(c: CodeUnit) { !IsSpace(c) }

  /** The words of a text with one space between each two, and one at the end if the text ends in whitespace. */
  function Spaced(text: Str): Str {
    var words := WordsOf(text, NotSpace);
    Joined(words, SPACE) + if words != [] && IsSpace(text[|text| - 1]) then [SPACE] else []
  }

  lemma {:induction false} CollapseAfterWord(word: Str, rest: Str, bare: bool)
    requires (forall c :: c in word ==> !IsSpace(c)) && word != []
    ensures Collapse(word + rest, bare) == word + Collapse(rest, false)
  {
    var text := word + rest;
    assert text[0] in word && text[1..] == word[1..] + rest;
    if |word| == 1 {
      assert text[1..] == rest;
    } else {
      CollapseAfterWord(word[1..], rest, false);
    }
  }

  /** Collapsing a text leaves its words with single spaces between them. */
  lemma {:induction false} CollapseIsSpaced(text: Str)
    ensures Collapse(text, true) == Spaced(text)
    decreases |text|
  {
    if text == [] {
    } else if IsSpace(text[0]) {
      CollapseIsSpaced(text[1..]);
      assert [] + Collapse(text[1..], true) == Collapse(text[1..], true);
    } else {
      var word := Leading(text, NotSpace);
      var rest := text[|word|..];
      assert text == word + rest && word[|word| - 1] in word;
      CollapseAfterWord(word, rest, true);
      JoinedCons(word, WordsOf(rest, NotSpace), SPACE);
      if rest == [] {
        assert word + [] == word;
      } else {
        CollapseIsSpaced(rest[1..]);
        SpacedCons(text, word, rest);
      }
    }
  }

  lemma SpacedCons(text: Str, word: Str, rest: Str)
    requires text == word + rest && rest != [] && IsSpace(rest[0]) && word != [] && word == Leading(text, NotSpace)
    requires !IsSpace(text[0])
    ensures Spaced(text) == word + ([SPACE] + Spaced(rest[1..]))
  {
    var words := WordsOf(rest, NotSpace);
    JoinedCons(word, words, SPACE);
    NoWords(rest, NotSpace);
    assert text[|text| - 1] == rest[|rest| - 1];
    if words == [] {
      assert rest[|rest| - 1] in rest;
    } else {
      assert |rest| > 1;
      Regroup(word, Joined(words, SPACE), if IsSpace(text[|text| - 1]) then [SPACE] else []);
    }
  }

  lemma Regroup(word: Str, words: Str, tail: Str)
    ensures word + [SPACE] + words + tail == word + ([SPACE] + (words + tail))
  {}

  /**
   * Two statuses share a directory exactly when, trimmed, normalised and lowercased, they have the same
   * words, and reading the directory back gives these.
   */
  lemma SameSlugSameWords(a: Str, b: Str, u: Unicode)
    requires StatusSlug(a, u).Some? && StatusSlug(b, u).Some?
    ensures StatusSlug(a, u) == StatusSlug(b, u)
      <==> Spaced(u.lower(u.nfc(Trim(a)))) == Spaced(u.lower(u.nfc(Trim(b))))
    ensures ReadCode(StatusSlug(a, u).value) == Some(Spaced(u.lower(u.nfc(Trim(a)))))
  {
    SameSlugSameStatus(a, b, u);
    CollapseIsSpaced(u.lower(u.nfc(Trim(a))));
    CollapseIsSpaced(u.lower(u.nfc(Trim(b))));
  }

  /** Collapsing keeps the other characters, leaves only single inner spaces, and does nothing twice. */
  lemma {:induction false} CollapseTwice(text: Str, bare: bool)
    ensures Collapse(Collapse(text, bare), bare) == Collapse(text, bare)
    ensures bare && Collapse(text, bare) != [] ==> !IsSpace(Collapse(text, bare)[0])
  {
    if text == [] {
    } else {
      if IsSpace(text[0]) {
        CollapseTwice(text[1..], true);
        var after := Collapse(text[1..], true);
        if bare {
          assert Collapse(text, bare) == [] + after == after;
        } else {
          assert Collapse(text, bare) == [SPACE] + after && ([SPACE] + after)[1..] == after;
        }
      } else {
        CollapseTwice(text[1..], false);
        var after := Collapse(text[1..], false);
        assert ([text[0]] + after)[1..] == after;
      }
    }
  }
}
