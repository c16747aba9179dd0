/** The words of a text: its maximal runs of the characters that are kept. */
module TextWords {
  import opened JsStrings

  /** The longest prefix of kept characters. */
  function Leading(s: Str, keep: CodeUnit -> bool): (r: Str)
    ensures r <= s && (forall c :: c in r ==> keep(c)) && (|r| < |s| ==> !keep(s[|r|]))
    ensures s != [] && keep(s[0]) ==> r != []
  {
    if s == [] || !keep(s[0]) then [] else [s[0]] + Leading(s[1..], keep)
  }

  function WordsOf(s: Str, keep: CodeUnit -> bool): (words: seq<Str>)
    ensures forall i :: 0 <= i < |words| ==> words[i] != [] && forall c :: c in words[i] ==> keep(c)
    decreases |s|
  {
    if s == [] then []
    else if !keep(s[0]) then WordsOf(s[1..], keep)
    else
      var word := Leading(s, keep);
      [word] + WordsOf(s[|word|..], keep)
  }

  /** The words one after the other, with a separator between each two. */
  function Joined(words: seq<Str>, separator: CodeUnit): Str {
    if words == [] then []
    else if |words| == 1 then words[0]
    else words[0] + [separator] + Joined(words[1..], separator)
  }

  lemma NoWords(s: Str, keep: CodeUnit -> bool)
    ensures WordsOf(s, keep) == [] <==> forall c :: c in s ==> !keep(c)
    decreases |s|
  {
    if s != [] {
      assert s == [s[0]] + s[1..];
      if !keep(s[0]) { NoWords(s[1..], keep); }
    }
  }

  lemma JoinedCons(word: Str, rest: seq<Str>, separator: CodeUnit)
    ensures Joined([word] + rest, separator)
      == if rest == [] then word else word + [separator] + Joined(rest, separator)
  {
    assert ([word] + rest)[1..] == rest;
  }

  lemma JoinedFilled(words: seq<Str>, separator: CodeUnit)
    requires forall i :: 0 <= i < |words| ==> words[i] != []
    ensures Joined(words, separator) == [] <==> words == []
  {}

  predicate Single(s: Str, separator: CodeUnit) {
    forall i :: 0 < i < |s| ==> s[i - 1] != separator || s[i] != separator
  }

  /** Separators stand alone and never at an end. */
  lemma {:induction false} JoinedSingle(words: seq<Str>, separator: CodeUnit)
    requires forall i :: 0 <= i < |words| ==> words[i] != [] && separator !in words[i]
    ensures Single(Joined(words, separator), separator)
    ensures words != [] ==> Joined(words, separator)[0] != separator
    decreases |words|
  {
    if words != [] {
      var first := words[0];
      assert first[0] in first && first[|first| - 1] in first && forall i :: 0 <= i < |first| ==> first[i] in first;
      if |words| > 1 { JoinedSingle(words[1..], separator); }
    }
  }
}
