/**
 * JavaScript strings: sequences of UTF-16 code units, so that lone surrogates, `length` and
 * `slice` mean what they mean to the adapters.
 */
module JsStrings {
  import opened Wrappers

  type CodeUnit = c: int | 0 <= c < 0x1_0000
  type Str = seq<CodeUnit>

  /** A literal of the source, as code units (every literal used here is ASCII). */
  function U(s: string): (r: Str)
    ensures |r| == |s|
    ensures forall i :: 0 <= i < |s| ==> r[i] == (if s[i] < '\U{80}' then s[i] as int else 0xFFFD)
  {
    seq(|s|, i requires 0 <= i < |s| => if s[i] < '\U{80}' then s[i] as int else 0xFFFD)
  }

  const SLASH: CodeUnit := 47
  const DASH: CodeUnit := 45
  const PERCENT: CodeUnit := 37
  const UNDERSCORE: CodeUnit := 95
  const DOT: CodeUnit := 46

  predicate IsDigit(c: CodeUnit) { 48 <= c <= 57 }

  predicate IsLower(c: CodeUnit) { 97 <= c <= 122 }

  predicate IsUpper(c: CodeUnit) { 65 <= c <= 90 }

  predicate IsAlnum(c: CodeUnit) { IsDigit(c) || IsLower(c) || IsUpper(c) }

  /** ECMA-262 WhiteSpace and LineTerminator: what `trim` strips and `\s` matches. */
  predicate IsSpace(c: CodeUnit) {
    9 <= c <= 13 || c == 32 || c == 0xA0 || c == 0x1680 || 0x2000 <= c <= 0x200A
    || c == 0x2028 || c == 0x2029 || c == 0x202F || c == 0x205F || c == 0x3000 || c == 0xFEFF
  }

  function TrimStart(s: Str): Str {
    if s != [] && IsSpace(s[0]) then TrimStart(s[1..]) else s
  }

  function TrimEnd(s: Str): Str {
    if s != [] && IsSpace(s[|s| - 1]) then TrimEnd(s[..|s| - 1]) else s
  }

  /** `String.prototype.trim`. */
  function Trim(s: Str): Str { TrimEnd(TrimStart(s)) }

  /** No whitespace at either end. */
  predicate Tight(s: Str) {
    s == [] || (!IsSpace(s[0]) && !IsSpace(s[|s| - 1]))
  }

  /** A trimmed, non-empty string: what `readString` yields. */
  predicate Clean(s: Str) { s != [] && Tight(s) }

  /** `readString`: the trimmed text, unless it is blank. */
  function ReadString(value: Option<Str>): (r: Option<Str>)
    ensures r.Some? ==> value.Some? && r.value == Trim(value.value) && Clean(r.value)
  {
    match value
    case None => None
    case Some(s) =>
      TrimIsTight(s);
      if Trim(s) == [] then None else Some(Trim(s))
  }

  /** The readable strings of a list, each once, in order: what adding them to a Set gives. */
  function DistinctStrings(items: seq<Option<Str>>): seq<Str> {
    if items == [] then []
    else
      var before, text := DistinctStrings(items[..|items| - 1]), ReadString(items[|items| - 1]);
      if text.Some? && text.value !in before then before + [text.value] else before
  }

  lemma {:induction false} DistinctMembers(items: seq<Option<Str>>, text: Str)
    ensures text in DistinctStrings(items) <==> exists k :: 0 <= k < |items| && ReadString(items[k]) == Some(text)
  {
    if items == [] {
    } else {
      var front, last := items[..|items| - 1], items[|items| - 1];
      DistinctMembers(front, text);
      if k :| 0 <= k < |items| && ReadString(items[k]) == Some(text) && k < |front| { assert front[k] == items[k]; }
      if k :| 0 <= k < |front| && ReadString(front[k]) == Some(text) { assert items[k] == front[k]; }
      if ReadString(last) == Some(text) { assert items[|items| - 1] == last; }
    }
  }

  lemma {:induction false} TrimEndKeepsStart(s: Str)
    ensures TrimEnd(s) <= s
    ensures TrimEnd(s) == [] || !IsSpace(TrimEnd(s)[|TrimEnd(s)| - 1])
  {
    if s != [] && IsSpace(s[|s| - 1]) { TrimEndKeepsStart(s[..|s| - 1]); }
  }

  lemma {:induction false} TrimStartStops(s: Str)
    ensures TrimStart(s) == [] || !IsSpace(TrimStart(s)[0])
  {
    if s != [] && IsSpace(s[0]) { TrimStartStops(s[1..]); }
  }

  lemma TrimIsTight(s: Str)
    ensures Tight(Trim(s))
  {
    TrimStartStops(s);
    TrimEndKeepsStart(TrimStart(s));
  }

  lemma TrimOfTight(s: Str)
    requires Tight(s)
    ensures Trim(s) == s
  {}

  lemma TrimTwice(s: Str)
    ensures Trim(Trim(s)) == Trim(s)
  {
    TrimIsTight(s);
    TrimOfTight(Trim(s));
  }

  predicate Blank(s: Str) { forall i :: 0 <= i < |s| ==> IsSpace(s[i]) }

  lemma DropNext(s: Str, n: nat)
    requires n < |s| && Blank(s[1..][..n]) && IsSpace(s[0])
    ensures s[1..][n..] == s[n + 1..] && Blank(s[..n + 1])
  {
    assert s[..n + 1] == [s[0]] + s[1..][..n];
  }

  lemma {:induction false} TrimStartDrops(s: Str) returns (n: nat)
    ensures n <= |s| && TrimStart(s) == s[n..] && Blank(s[..n])
  {
    n := 0;
    if s != [] && IsSpace(s[0]) {
      var rest := TrimStartDrops(s[1..]);
      DropNext(s, rest);
      n := rest + 1;
    }
  }

  lemma {:induction false} TrimEndDrops(s: Str)
    ensures TrimEnd(s) <= s && Blank(s[|TrimEnd(s)|..])
  {
    if s != [] && IsSpace(s[|s| - 1]) { TrimEndDrops(s[..|s| - 1]); }
  }

  /** Trimming takes whitespace off the two ends and leaves none there. */
  lemma TrimTakesBlanks(s: Str) returns (before: Str, after: Str)
    ensures s == before + Trim(s) + after && Blank(before) && Blank(after)
    ensures Tight(Trim(s))
  {
    TrimIsTight(s);
    var n := TrimStartDrops(s);
    TrimEndDrops(s[n..]);
    before, after := s[..n], s[n..][|TrimEnd(s[n..])|..];
    Rejoined(s, n, TrimEnd(s[n..]));
  }

  lemma Rejoined(s: Str, n: nat, middle: Str)
    requires n <= |s| && middle <= s[n..]
    ensures s == s[..n] + middle + s[n..][|middle|..]
  {
    assert s[n..] == middle + s[n..][|middle|..];
    assert s == s[..n] + s[n..];
  }

  /** Code-unit order: `localeCompare` on fixed-width ISO strings, and `Array.prototype.sort`. */
  predicate Less(a: Str, b: Str) {
    b != [] && (a == [] || a[0] < b[0] || (a[0] == b[0] && Less(a[1..], b[1..])))
  }

  lemma {:induction false} LessIrreflexive(a: Str)
    ensures !Less(a, a)
  {
    if a == [] {
    } else {
      LessIrreflexive(a[1..]);
    }
  }

  lemma {:induction false} LessTransitive(a: Str, b: Str, c: Str)
    requires Less(a, b) && Less(b, c)
    ensures Less(a, c)
  {
    if a != [] && a[0] == b[0] == c[0] { LessTransitive(a[1..], b[1..], c[1..]); }
  }

  lemma {:induction false} LessTotal(a: Str, b: Str)
    ensures Less(a, b) || a == b || Less(b, a)
  {
    if a != [] && b != [] && a[0] == b[0] {
      LessTotal(a[1..], b[1..]);
      assert a[1..] == b[1..] ==> a == [a[0]] + a[1..] == [b[0]] + b[1..] == b;
    }
  }

  lemma LessAsymmetric(a: Str, b: Str)
    requires Less(a, b)
    ensures !Less(b, a) && a != b
  {
    LessIrreflexive(a);
    if Less(b, a) { LessTransitive(a, b, a); }
  }

  /** Strings that differ within their first n units are ordered by those units alone. */
  lemma {:induction false} LessByPrefix(a: Str, b: Str, n: nat)
    requires n <= |a| && n <= |b|
    requires a[..n] != b[..n]
    ensures Less(a, b) == Less(a[..n], b[..n])
  {
    if a[0] == b[0] {
      assert a[..n] == [a[0]] + a[1..][..n - 1] && b[..n] == [b[0]] + b[1..][..n - 1];
      assert a[..n][1..] == a[1..][..n - 1] && b[..n][1..] == b[1..][..n - 1];
      LessByPrefix(a[1..], b[1..], n - 1);
    }
  }
}
