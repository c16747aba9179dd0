/**
 * Absolute paths as lists of segments. A pattern such as `^/a/([^/]+)/b$` is a match on the
 * list that `Split` returns.
 */
module PathSegments {
  import opened Wrappers
  import opened JsStrings

  function Join(segments: seq<Str>): Str {
    if segments == [] then [] else [SLASH] + segments[0] + Join(segments[1..])
  }

  /** `lastIndexOf('/')` */
  function LastSlash(s: Str): (r: int)
    ensures -1 <= r < |s|
    ensures r >= 0 ==> s[r] == SLASH && SLASH !in s[r + 1..]
    ensures r == -1 ==> SLASH !in s
  {
    if s == [] then -1
    else if s[|s| - 1] == SLASH then |s| - 1
    else
      assert s == s[..|s| - 1] + [s[|s| - 1]];
      LastSlash(s[..|s| - 1])
  }

  /** Everything before the first slash. */
  function Head(s: Str): (r: Str)
    ensures r <= s && SLASH !in r && (|r| < |s| ==> s[|r|] == SLASH)
  {
    if s == [] || s[0] == SLASH then [] else [s[0]] + Head(s[1..])
  }

  /** The segments of an absolute path; None when the text does not start with a slash. */
  function Split(path: Str): Option<seq<Str>>
    decreases |path|
  {
    if path == [] then Some([])
    else if path[0] != SLASH then None
    else
      var head := Head(path[1..]);
      var rest :- Split(path[1 + |head|..]);
      Some([head] + rest)
  }

  /** `([^/]+)\.json` on a whole segment. */
  function Stem(segment: Str): Option<Str> {
    if |segment| > 5 && segment[|segment| - 5..] == U(".json") then Some(segment[..|segment| - 5]) else None
  }

  predicate Plain(segment: Str) { SLASH !in segment }

  predicate AllPlain(segments: seq<Str>) {
    forall i :: 0 <= i < |segments| ==> Plain(segments[i])
  }

  lemma {:induction false} HeadOf(segment: Str, rest: Str)
    requires Plain(segment)
    requires rest == [] || rest[0] == SLASH
    ensures Head(segment + rest) == segment
  {
    if segment == [] {
      assert segment + rest == rest;
    } else {
      assert (segment + rest)[1..] == segment[1..] + rest;
      HeadOf(segment[1..], rest);
    }
  }

  /** Splitting undoes joining. */
  lemma {:induction false} SplitJoin(segments: seq<Str>)
    requires AllPlain(segments)
    ensures Split(Join(segments)) == Some(segments)
  {
    if segments == [] {
    } else {
      SplitJoin(segments[1..]);
      JoinStarts(segments[1..]);
      SplitStep(segments[0], Join(segments[1..]));
      assert [segments[0]] + segments[1..] == segments;
    }
  }

  lemma JoinStarts(segments: seq<Str>)
    ensures Join(segments) == [] || Join(segments)[0] == SLASH
  {}

  lemma SplitStep(first: Str, rest: Str)
    requires Plain(first) && (rest == [] || rest[0] == SLASH) && Split(rest).Some?
    ensures Split([SLASH] + first + rest) == Some([first] + Split(rest).value)
  {
    var path := [SLASH] + first + rest;
    DropSlash(path, first, rest);
    HeadOf(first, rest);
    SplitCons(path, first, rest);
  }

  lemma DropSlash(path: Str, first: Str, rest: Str)
    requires path == [SLASH] + first + rest
    ensures path[0] == SLASH && path[1..] == first + rest && path[1 + |first|..] == rest
  {}

  lemma SplitCons(path: Str, first: Str, rest: Str)
    requires path != [] && path[0] == SLASH && 1 + |first| <= |path|
    requires Head(path[1..]) == first && path[1 + |first|..] == rest
    requires Split(rest).Some?
    ensures Split(path) == Some([first] + Split(rest).value)
  {}

  /** Joining undoes splitting, and every segment is slash-free. */
  lemma {:induction false} JoinSplit(path: Str)
    requires Split(path).Some?
    ensures Join(Split(path).value) == path && AllPlain(Split(path).value)
    decreases |path|
  {
    if path == [] {
    } else {
      var head := Head(path[1..]);
      var tail := path[1 + |head|..];
      JoinSplit(tail);
      assert path == [SLASH] + head + tail;
    }
  }

  lemma JoinInjective(a: seq<Str>, b: seq<Str>)
    requires AllPlain(a) && AllPlain(b)
    requires Join(a) == Join(b)
    ensures a == b
  {
    SplitJoin(a);
    SplitJoin(b);
  }

  lemma StemOf(file: Str)
    requires file != []
    ensures Stem(file + U(".json")) == Some(file)
  {
    var s := file + U(".json");
    assert s[|s| - 5..] == U(".json") && s[..|s| - 5] == file;
  }

  lemma LastSlashOf(front: Str, back: Str)
    requires SLASH !in back
    ensures LastSlash(front + [SLASH] + back) == |front|
  {
    var s := front + [SLASH] + back;
    assert s[|front|] == SLASH;
    assert s[|front| + 1..] == back;
    SlashAfter(s, |front|);
  }

  lemma {:induction false} SlashAfter(s: Str, i: nat)
    requires i < |s| && s[i] == SLASH && SLASH !in s[i + 1..]
    ensures LastSlash(s) == i
  {
    if i < |s| - 1 {
      assert s[|s| - 1] in s[i + 1..];
      SlashAfter(s[..|s| - 1], i);
    }
  }
}
