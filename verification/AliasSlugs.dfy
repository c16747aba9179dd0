/**
 * Human-readable slugs: slugify of the Confluence path mapper
 * (packages/confluence/src/path-mapper.ts:53-72), the shared slugifyAlias
 * (packages/core/src/alias-slug.ts:6-23) and Confluence's own, which cuts long
 * titles elsewhere (packages/confluence/src/alias-slug.ts:12-22).
 */
module AliasSlugs {
  import opened JsStrings
  import opened StatusSlugs
  import opened TextWords

  const MAX_SLUG: nat := 80

  function Filter(s: Str, keep: CodeUnit -> bool): Str {
    if s == [] then [] else (if keep(s[0]) then [s[0]] else []) + Filter(s[1..], keep)
  }

  /** The combining marks that NFKD splits off. */
  predicate IsMark(c: CodeUnit) { 0x300 <= c <= 0x36F }

  function Unmarked(s: Str): Str { Filter(s, (c: CodeUnit) => !IsMark(c)) }

  /** `replace(/[^...]+/g, '-')`: every run of characters that are not kept becomes one dash. */
  function Dashed(s: Str, keep: CodeUnit -> bool, inRun: bool := false): Str {
    if s == [] then []
    else if keep(s[0]) then [s[0]] + Dashed(s[1..], keep, false)
    else (if inRun then [] else [DASH]) + Dashed(s[1..], keep, true)
  }

  function StripStart(s: Str): Str {
    if s != [] && s[0] == DASH then StripStart(s[1..]) else s
  }

  function StripEnd(s: Str): Str {
    if s != [] && s[|s| - 1] == DASH then StripEnd(s[..|s| - 1]) else s
  }

  function Strip(s: Str): Str { StripEnd(StripStart(s)) }

  function AsciiLower(s: Str): (r: Str)
    ensures |r| == |s|
    ensures forall i :: 0 <= i < |s| ==> r[i] == if IsUpper(s[i]) then s[i] + 32 else s[i]
  {
    seq(|s|, i requires 0 <= i < |s| => if IsUpper(s[i]) then s[i] + 32 else s[i])
  }

  /** `lastIndexOf('-')` */
  function LastDash(s: Str): (r: int)
    ensures -1 <= r < |s| && (r >= 0 ==> s[r] == DASH)
  {
    if s == [] then -1 else if s[|s| - 1] == DASH then |s| - 1 else LastDash(s[..|s| - 1])
  }

  /** The first 80 characters, cut back to a dash when there is one after the first character. */
  function Cut(slug: Str): Str {
    if |slug| <= MAX_SLUG then slug
    else
      var head := slug[..MAX_SLUG];
      if LastDash(head) > 0 then head[..LastDash(head)] else head
  }

  predicate LowerOrDigit(c: CodeUnit) { IsLower(c) || IsDigit(c) }

  predicate IsBrace(c: CodeUnit) { c == 123 || c == 125 }

  /** slugify, on the decomposed text. */
  function SlugOfDecomposed(text: Str): Str {
    var ascii := Filter(Unmarked(text), (c: CodeUnit) => c < 0x80);
    var slug := AsciiLower(Strip(Dashed(Filter(ascii, (c: CodeUnit) => !IsBrace(c)), IsAlnum)));
    if |slug| <= MAX_SLUG then slug else Strip(Cut(slug))
  }

  function Slugify(value: Str, u: Unicode): Str { SlugOfDecomposed(u.nfkd(value)) }

  /** slugifyAlias, on the lowercased text. */
  function AliasOfLowered(text: Str): Str {
    var slug := Strip(Dashed(text, LowerOrDigit));
    var bounded := if |slug| <= MAX_SLUG then slug else StripEnd(Cut(slug));
    if bounded == [] then U("untitled") else bounded
  }

  function SlugifyAlias(input: Str, u: Unicode): Str { AliasOfLowered(u.lower(Unmarked(u.nfkd(input)))) }

  /** Confluence's slugifyAlias: the first 80 characters are taken before the dashes at the ends are stripped. */
  function ConfluenceAliasOfLowered(text: Str): Str {
    var dashed := Dashed(text, LowerOrDigit);
    var slug := Strip(if |dashed| <= MAX_SLUG then dashed else dashed[..MAX_SLUG]);
    if slug == [] then U("untitled") else slug
  }

  function ConfluenceAlias(input: Str, u: Unicode): Str { ConfluenceAliasOfLowered(u.lower(Unmarked(u.nfkd(input)))) }

  /** slugifies: whether a title has a letter or digit to slug. */
  predicate Slugifies(value: Str, u: Unicode) { exists c :: c in Unmarked(u.nfkd(value)) && IsAlnum(c) }

  // ---------------------------------------------------------------------------
  // The shape of a slug
  // ---------------------------------------------------------------------------

  predicate SlugUnits(s: Str) { forall i :: 0 <= i < |s| ==> LowerOrDigit(s[i]) || s[i] == DASH }

  /** At most 80 lowercase letters, digits and dashes, with no dash at either end. */
  predicate SlugShape(s: Str) {
    && SlugUnits(s) && |s| <= MAX_SLUG
    && (s != [] ==> s[0] != DASH && s[|s| - 1] != DASH)
  }

  lemma {:induction false} DashedUnits(s: Str, keep: CodeUnit -> bool, inRun: bool)
    ensures forall c :: c in Dashed(s, keep, inRun) ==> keep(c) || c == DASH
  {
    if s == [] {
    } else {
      DashedUnits(s[1..], keep, !keep(s[0]));
    }
  }

  lemma {:induction false} StripStartSuffix(s: Str)
    ensures exists n :: 0 <= n <= |s| && StripStart(s) == s[n..]
    ensures StripStart(s) != [] ==> StripStart(s)[0] != DASH
  {
    if s != [] && s[0] == DASH {
      StripStartSuffix(s[1..]);
      var n :| 0 <= n <= |s[1..]| && StripStart(s[1..]) == s[1..][n..];
      assert s[1..][n..] == s[n + 1..];
    } else {
      assert s == s[0..];
    }
  }

  lemma {:induction false} StripEndPrefix(s: Str)
    ensures StripEnd(s) <= s
    ensures StripEnd(s) != [] ==> StripEnd(s)[|StripEnd(s)| - 1] != DASH
    ensures s != [] && s[0] != DASH ==> StripEnd(s) != []
  {
    if s != [] && s[|s| - 1] == DASH { StripEndPrefix(s[..|s| - 1]); }
  }

  lemma StripShape(s: Str)
    ensures Strip(s) != [] ==> Strip(s)[0] != DASH && Strip(s)[|Strip(s)| - 1] != DASH
    ensures forall c :: c in Strip(s) ==> c in s
    ensures |Strip(s)| <= |s|
    ensures s != [] && s[0] != DASH ==> Strip(s) != [] && Strip(s) == StripEnd(s)
  {
    StripStartSuffix(s);
    StripEndPrefix(StripStart(s));
  }

  lemma CutShape(slug: Str)
    requires SlugUnits(slug) && slug != [] && slug[0] != DASH
    ensures SlugUnits(Cut(slug)) && Cut(slug) != [] && Cut(slug)[0] != DASH && |Cut(slug)| <= MAX_SLUG
  {}

  lemma SlugifyShape(value: Str, u: Unicode)
    ensures SlugShape(Slugify(value, u))
  {
    var text := Filter(Filter(Unmarked(u.nfkd(value)), (c: CodeUnit) => c < 0x80), (c: CodeUnit) => !IsBrace(c));
    DashedUnits(text, IsAlnum, false);
    StripShape(Dashed(text, IsAlnum));
    var stripped := Strip(Dashed(text, IsAlnum));
    var slug := AsciiLower(stripped);
    forall i | 0 <= i < |slug| ensures LowerOrDigit(slug[i]) || slug[i] == DASH { assert stripped[i] in stripped; }
    if slug != [] {
      CutShape(slug);
      StripShape(Cut(slug));
      var short := Strip(Cut(slug));
      forall i | 0 <= i < |short| ensures LowerOrDigit(short[i]) || short[i] == DASH { assert short[i] in short; }
    }
  }

  /** The alias slug is never empty: the printer's own guard against an empty slug cannot fire. */
  lemma SlugifyAliasShape(input: Str, u: Unicode)
    ensures SlugShape(SlugifyAlias(input, u)) && SlugifyAlias(input, u) != []
  {
    var text := u.lower(Unmarked(u.nfkd(input)));
    DashedUnits(text, LowerOrDigit, false);
    StripShape(Dashed(text, LowerOrDigit));
    var slug := Strip(Dashed(text, LowerOrDigit));
    forall i | 0 <= i < |slug| ensures LowerOrDigit(slug[i]) || slug[i] == DASH { assert slug[i] in slug; }
    if slug != [] {
      CutShape(slug);
      StripEndPrefix(Cut(slug));
    }
  }

  /** The same of Confluence's own. */
  lemma ConfluenceAliasShape(input: Str, u: Unicode)
    ensures SlugShape(ConfluenceAlias(input, u)) && ConfluenceAlias(input, u) != []
  {
    var dashed := Dashed(u.lower(Unmarked(u.nfkd(input))), LowerOrDigit);
    DashedUnits(u.lower(Unmarked(u.nfkd(input))), LowerOrDigit, false);
    var head := if |dashed| <= MAX_SLUG then dashed else dashed[..MAX_SLUG];
    assert forall c :: c in head ==> c in dashed;
    StripShape(head);
    var slug := Strip(head);
    forall i | 0 <= i < |slug| ensures LowerOrDigit(slug[i]) || slug[i] == DASH { assert slug[i] in slug; }
  }

  // ---------------------------------------------------------------------------
  // A slug is its words with dashes between them
  // ---------------------------------------------------------------------------

  lemma {:induction false} StripEndConcat(a: Str, b: Str)
    ensures StripEnd(a + b) == if StripEnd(b) != [] then a + StripEnd(b) else StripEnd(a)
    decreases |b|
  {
    if b == [] {
      assert a + b == a;
    } else if b[|b| - 1] == DASH {
      assert (a + b)[..|a + b| - 1] == a + b[..|b| - 1];
      StripEndConcat(a, b[..|b| - 1]);
    }
  }

  lemma {:induction false} DashedAfterWord(word: Str, rest: Str, keep: CodeUnit -> bool, inRun: bool)
    requires (forall c :: c in word ==> keep(c)) && word != []
    ensures Dashed(word + rest, keep, inRun) == word + Dashed(rest, keep, false)
  {
    var s := word + rest;
    assert s[0] in word && s[1..] == word[1..] + rest;
    if |word| == 1 {
      assert s[1..] == rest;
    } else {
      DashedAfterWord(word[1..], rest, keep, false);
    }
  }

  lemma TightEnd(word: Str)
    requires word != [] && DASH !in word
    ensures StripEnd(word) == word && StripStart(word) == word
  {
    assert word[|word| - 1] in word && word[0] in word;
  }

  /** Dashes stand between the words, but for one that may stand at the end. */
  lemma {:induction false} DashedWords(s: Str, keep: CodeUnit -> bool)
    requires !keep(DASH)
    ensures StripEnd(Dashed(s, keep, true)) == Joined(WordsOf(s, keep), DASH)
    ensures Dashed(s, keep, true) != [] ==> Dashed(s, keep, true)[0] != DASH
    ensures |Dashed(s, keep, true)| <= |Joined(WordsOf(s, keep), DASH)| + 1
    decreases |s|
  {
    if s == [] {
    } else if !keep(s[0]) {
      DashedWords(s[1..], keep);
      assert [] + Dashed(s[1..], keep, true) == Dashed(s[1..], keep, true);
    } else {
      var word := Leading(s, keep);
      var rest := s[|word|..];
      assert s == word + rest && word[0] in word && DASH !in word;
      DashedAfterWord(word, rest, keep, true);
      TightEnd(word);
      JoinedCons(word, WordsOf(rest, keep), DASH);
      if rest != [] {
        DashedWords(rest[1..], keep);
        DashBetween(word, Dashed(rest[1..], keep, true));
        JoinedFilled(WordsOf(rest, keep), DASH);
      } else {
        assert word + [] == word;
      }
    }
  }

  lemma DashBetween(word: Str, after: Str)
    requires word != [] && DASH !in word
    ensures StripEnd(word + ([DASH] + after))
      == if StripEnd(after) == [] then word else word + [DASH] + StripEnd(after)
  {
    TightEnd(word);
    StripEndConcat([DASH], after);
    StripEndConcat(word, [DASH] + after);
    assert [DASH][..0] == [];
    assert word + ([DASH] + StripEnd(after)) == word + [DASH] + StripEnd(after);
  }

  /** The dashed text without its outer dashes is the words with a dash between each two. */
  lemma StrippedWords(s: Str, keep: CodeUnit -> bool)
    requires !keep(DASH)
    ensures Strip(Dashed(s, keep)) == Joined(WordsOf(s, keep), DASH)
  {
    DashedWords(s, keep);
    var inner := Dashed(s, keep, true);
    if s != [] && !keep(s[0]) {
      assert Dashed(s, keep) == [DASH] + inner && ([DASH] + inner)[1..] == inner;
      assert StripStart([DASH] + inner) == StripStart(inner) == inner;
    } else {
      assert Dashed(s, keep) == inner;
    }
  }

  /** The words of lowercase letters and digits, joined by dashes. */
  function Hyphened(text: Str): Str { Joined(WordsOf(text, LowerOrDigit), DASH) }

  /** All of a text of at most 80 characters, or what comes before the last dash among the first 80, if there is one. */
  predicate Fits(slug: Str, words: Str) {
    if |words| <= 80 then slug == words
    else if |slug| < 80 then slug <= words && words[|slug|] == DASH && DASH !in words[|slug| + 1..80]
    else slug == words[..80] && DASH !in slug
  }

  lemma CutFits(words: Str)
    requires words != [] && words[0] != DASH && Single(words, DASH) && |words| > MAX_SLUG
    ensures StripEnd(Cut(words)) == Cut(words) && Fits(Cut(words), words)
  {
    var head, k := words[..MAX_SLUG], LastDash(words[..MAX_SLUG]);
    LastDashIs(head);
    if k > 0 {
      assert words[k - 1] != DASH;
      assert words[k + 1..80] == head[k + 1..];
    } else {
      assert DASH !in head && head[|head| - 1] in head;
    }
  }

  lemma {:induction false} LastDashIs(s: Str)
    ensures if LastDash(s) < 0 then DASH !in s else DASH !in s[LastDash(s) + 1..]
  {
    if s != [] && s[|s| - 1] != DASH {
      var front := s[..|s| - 1];
      LastDashIs(front);
      assert s == front + [s[|s| - 1]];
      if LastDash(front) >= 0 { assert s[LastDash(s) + 1..] == front[LastDash(s) + 1..] + [s[|s| - 1]]; }
    }
  }

  lemma HyphenedShape(text: Str)
    ensures Single(Hyphened(text), DASH) && (Hyphened(text) != [] ==> Hyphened(text)[0] != DASH)
  {
    JoinedSingle(WordsOf(text, LowerOrDigit), DASH);
  }

  /**
   * The alias slug of a title is the words of its decomposed, unmarked and lowercased text with dashes
   * between them, as far as they fit, and a fixed word when there are none.
   */
  lemma SlugifyAliasIsWords(input: Str, u: Unicode)
    ensures
      var words := Hyphened(u.lower(Unmarked(u.nfkd(input))));
      if words == [] then SlugifyAlias(input, u) == U("untitled") else Fits(SlugifyAlias(input, u), words)
  {
    var text := u.lower(Unmarked(u.nfkd(input)));
    StrippedWords(text, LowerOrDigit);
    HyphenedShape(text);
    if |Hyphened(text)| > MAX_SLUG { CutFits(Hyphened(text)); }
  }

  /** The same of Confluence's own slug. */
  lemma ConfluenceAliasIsWords(input: Str, u: Unicode)
    ensures
      var words := Hyphened(u.lower(Unmarked(u.nfkd(input))));
      if words == [] then ConfluenceAlias(input, u) == U("untitled")
      else ConfluenceAlias(input, u) <= words && (|words| < MAX_SLUG - 1 ==> ConfluenceAlias(input, u) == words)
  {
    var text := u.lower(Unmarked(u.nfkd(input)));
    StrippedWords(text, LowerOrDigit);
    DashedWords(text, LowerOrDigit);
    DashedStart(text, LowerOrDigit);
    ConfluenceCut(Dashed(text, LowerOrDigit), Dashed(text, LowerOrDigit, true), Hyphened(text));
  }

  lemma ConfluenceCut(dashed: Str, inner: Str, words: Str)
    requires dashed == inner || dashed == [DASH] + inner
    requires inner != [] ==> inner[0] != DASH
    requires Strip(dashed) == words == StripEnd(inner) && |inner| <= |words| + 1
    ensures
      var slug := Strip(if |dashed| <= MAX_SLUG then dashed else dashed[..MAX_SLUG]);
      slug <= words && (slug == [] <==> words == []) && (|words| < MAX_SLUG - 1 ==> slug == words)
  {
    if |dashed| > MAX_SLUG {
      var n := MAX_SLUG - (|dashed| - |inner|);
      HeadStripped(dashed, inner, MAX_SLUG);
      StripEndPrefix(inner);
      StripEndPrefix(inner[..n]);
    }
  }

  lemma DashedStart(s: Str, keep: CodeUnit -> bool)
    ensures Dashed(s, keep) == Dashed(s, keep, true) || Dashed(s, keep) == [DASH] + Dashed(s, keep, true)
  {}

  lemma HeadStripped(dashed: Str, inner: Str, n: nat)
    requires dashed == inner || dashed == [DASH] + inner
    requires inner != [] ==> inner[0] != DASH
    requires 1 < n < |dashed|
    ensures n - (|dashed| - |inner|) <= |inner|
    ensures StripStart(dashed[..n]) == inner[..n - (|dashed| - |inner|)]
  {
    if dashed != inner { assert dashed[..n] == [DASH] + inner[..n - 1] && dashed[..n][1..] == inner[..n - 1]; }
  }

  lemma {:induction false} FilterTwice(s: Str, a: CodeUnit -> bool, b: CodeUnit -> bool, both: CodeUnit -> bool)
    requires forall c :: both(c) <==> a(c) && b(c)
    ensures Filter(Filter(s, a), b) == Filter(s, both)
  {
    if s == [] {
    } else {
      FilterTwice(s[1..], a, b, both);
      var rest := Filter(s[1..], a);
      if a(s[0]) { assert ([s[0]] + rest)[1..] == rest; } else { assert [] + rest == rest; }
    }
  }

  /** What is left of a decomposed name: its ASCII characters but for braces. */
  function AsciiText(decomposed: Str): Str { Filter(decomposed, (c: CodeUnit) => c < 0x80 && !IsBrace(c)) }

  lemma AsciiTextIs(decomposed: Str)
    ensures AsciiText(decomposed)
      == Filter(Filter(Unmarked(decomposed), (c: CodeUnit) => c < 0x80), (c: CodeUnit) => !IsBrace(c))
  {
    FilterTwice(decomposed, (c: CodeUnit) => !IsMark(c), (c: CodeUnit) => c < 0x80, (c: CodeUnit) => c < 0x80);
    FilterTwice(decomposed, (c: CodeUnit) => c < 0x80, (c: CodeUnit) => !IsBrace(c),
                (c: CodeUnit) => c < 0x80 && !IsBrace(c));
  }

  /** The slug in a canonical file name: the words of its ASCII letters and digits, lowercased, as far as they fit. */
  lemma SlugifyIsWords(value: Str, u: Unicode)
    ensures Fits(Slugify(value, u), AsciiLower(Joined(WordsOf(AsciiText(u.nfkd(value)), IsAlnum), DASH)))
  {
    var text := AsciiText(u.nfkd(value));
    AsciiTextIs(u.nfkd(value));
    StrippedWords(text, IsAlnum);
    JoinedSingle(WordsOf(text, IsAlnum), DASH);
    var words := AsciiLower(Strip(Dashed(text, IsAlnum)));
    LoweredShape(Strip(Dashed(text, IsAlnum)));
    if |words| > MAX_SLUG {
      CutFits(words);
      assert StripStart(Cut(words)) == Cut(words);
    }
  }

  lemma LoweredShape(s: Str)
    requires Single(s, DASH) && (s != [] ==> s[0] != DASH)
    ensures Single(AsciiLower(s), DASH) && (s != [] ==> AsciiLower(s)[0] != DASH)
  {}
}
