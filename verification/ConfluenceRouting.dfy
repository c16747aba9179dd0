/**
 * The Confluence read router, which finds the record behind a path
 * (packages/confluence/src/queries.ts:87-162 and packages/confluence/src/path-mapper.ts:99-120, 178-189, 296-309).
 */
module ConfluenceRouting {
  import opened Wrappers
  import opened JsStrings
  import opened PathSegments
  import opened UriCodec
  import opened StatusSlugs
  import opened AliasSlugs
  import opened ConfluencePaths

  // ---------------------------------------------------------------------------
  // Names and ids
  // ---------------------------------------------------------------------------

  /** The slash-free rest after the leftmost doubled mark that has one: the match of `MM([^/]+)$`. */
  function AfterMark(s: Str, mark: CodeUnit): Option<Str> {
    if |s| < 3 then None
    else if s[0] == mark && s[1] == mark && Plain(s[2..]) then Some(s[2..])
    else AfterMark(s[1..], mark)
  }

  /** The id in a decoded segment: after `__`, or after the older `--`, or all of it. */
  function IdOf(decoded: Str): Str {
    match AfterMark(decoded, UNDERSCORE)
    case Some(id) => id
    case None => match AfterMark(decoded, DASH) case Some(id) => id case None => decoded
  }

  /** extractConfluenceIdFromPathSegment; None when decoding throws. */
  function ExtractId(segment: Str): Option<Str> {
    var decoded :- Decode(segment);
    Some(IdOf(decoded))
  }

  const MARK: Str := [UNDERSCORE, UNDERSCORE]

  /** The part stands at this index. */
  predicate At(s: Str, i: int, part: Str) { 0 <= i && i + |part| <= |s| && s[i..i + |part|] == part }

  function LastFrom(s: Str, part: Str, i: int): (r: int)
    ensures r == -1 || At(s, r, part)
    ensures forall k :: k <= i && At(s, k, part) ==> k <= r
    decreases i + 1
  {
    if i < 0 then -1 else if At(s, i, part) then i else LastFrom(s, part, i - 1)
  }

  /** `lastIndexOf`: the last index where the part stands, or -1. */
  function LastIndexOf(s: Str, part: Str): (r: int)
    ensures r == -1 || At(s, r, part)
    ensures forall k :: At(s, k, part) ==> k <= r
  {
    LastFrom(s, part, |s| - |part|)
  }

  datatype NameParts = NameParts(humanReadable: Option<Str>, id: Str, ext: Option<Str>)

  /** parseNameWithId */
  function ParseNameWithId(filename: Str): NameParts {
    var dot := LastIndexOf(filename, [DOT]);
    var ext := if 0 < dot < |filename| - 1 then Some(filename[dot + 1..]) else None;
    var base := if ext.Some? then filename[..dot] else filename;
    Separated(base, ext)
  }

  /** A base name split at its last separator. */
  function Separated(base: Str, ext: Option<Str>): NameParts {
    var at := LastIndexOf(base, MARK);
    if at <= 0 || at == |base| - 2 then NameParts(None, base, ext)
    else NameParts(Some(base[..at]), base[at + 2..], ext)
  }

  // ---------------------------------------------------------------------------
  // The router
  // ---------------------------------------------------------------------------

  datatype Request =
    | ListPages
    | ListSpaces
    | ListSpacePages(spaceId: Str)
    | GetPage(pageId: Str)
    | GetSpace(spaceId: Str)

  /** NoRule and Throws are the two ways the router fails: its own error and a malformed escape. */
  datatype Route = To(request: Request) | NoRule | Throws

  function NormalizePath(path: Str): Str {
    var trimmed := Trim(path);
    if trimmed != [] && trimmed[0] == SLASH then trimmed else [SLASH] + trimmed
  }

  function PageRoute(segment: Str): Route {
    match ExtractId(segment) case Some(id) => To(GetPage(id)) case None => Throws
  }

  function SpaceRoute(segment: Str): Route {
    match ExtractId(segment) case Some(id) => To(GetSpace(id)) case None => Throws
  }

  function SpacePagesRoute(segment: Str): Route {
    match ExtractId(segment) case Some(id) => To(ListSpacePages(id)) case None => Throws
  }

  /** The rules, on the segments after /confluence. */
  function RouteSegments(rest: seq<Str>): Route {
    if rest == [U("pages")] || rest == [U("pages"), []] then To(ListPages)
    else if rest == [U("spaces")] || rest == [U("spaces"), []] then To(ListSpaces)
    else if (|rest| == 3 || (|rest| == 4 && rest[3] == [])) && rest[0] == U("spaces") && rest[1] != []
      && rest[2] == U("pages")
    then SpacePagesRoute(rest[1])
    else if |rest| == 4 && rest[0] == U("spaces") && rest[1] != [] && rest[2] == U("pages") && Stem(rest[3]).Some?
    then PageRoute(Stem(rest[3]).value)
    else if |rest| == 2 && rest[0] == U("pages") && Stem(rest[1]).Some? then PageRoute(Stem(rest[1]).value)
    else if |rest| == 2 && rest[0] == U("spaces") && Stem(rest[1]).Some? then SpaceRoute(Stem(rest[1]).value)
    else NoRule
  }

  /** resolveConfluenceReadRequest */
  function Resolve(path: Str): Route {
    match Split(NormalizePath(path))
    case None => NoRule
    case Some(segments) =>
      if segments == [] || segments[0] != U("confluence") then NoRule else RouteSegments(segments[1..])
  }

  // ---------------------------------------------------------------------------
  // What the parsers and the router accept
  // ---------------------------------------------------------------------------

  /** The mark stands doubled at an index, and what follows it is a segment. */
  predicate MarkedAt(s: Str, mark: CodeUnit, i: nat) {
    i + 2 < |s| && s[i] == mark && s[i + 1] == mark && Plain(s[i + 2..])
  }

  ghost predicate FirstMark(s: Str, mark: CodeUnit, i: nat) {
    MarkedAt(s, mark, i) && forall j: nat :: j < i ==> !MarkedAt(s, mark, j)
  }

  /** The id after a mark is what follows the first that can be one. */
  lemma {:induction false} AfterMarkIff(s: Str, mark: CodeUnit, id: Str)
    ensures AfterMark(s, mark) == Some(id) <==> exists i: nat :: FirstMark(s, mark, i) && id == s[i + 2..]
  {
    if |s| >= 3 {
      if MarkedAt(s, mark, 0) {
        assert FirstMark(s, mark, 0) && s[0 + 2..] == s[2..];
      } else {
        AfterMarkIff(s[1..], mark, id);
        ShiftMarks(s, mark);
        if i: nat :| FirstMark(s[1..], mark, i) && id == s[1..][i + 2..] {
          forall j: nat | j < i + 1 ensures !MarkedAt(s, mark, j) {
            if j > 0 { assert !MarkedAt(s[1..], mark, j - 1); }
          }
          assert FirstMark(s, mark, i + 1) && id == s[i + 1 + 2..];
        }
        if i: nat :| FirstMark(s, mark, i) && id == s[i + 2..] {
          var k: nat := i - 1;
          assert FirstMark(s[1..], mark, k) && id == s[1..][k + 2..];
        }
      }
    }
  }

  lemma ShiftMarks(s: Str, mark: CodeUnit)
    requires s != []
    ensures forall i: nat :: MarkedAt(s[1..], mark, i) <==> MarkedAt(s, mark, i + 1)
  {
    forall i: nat ensures MarkedAt(s[1..], mark, i) <==> MarkedAt(s, mark, i + 1) {
      if i + 3 <= |s| { assert s[1..][i + 2..] == s[i + 1 + 2..]; }
    }
  }

  /** What a file name is made of: an extension after its last dot, and a text before its last separator. */
  ghost predicate MadeOf(filename: Str, parts: NameParts) {
    var base := (if parts.humanReadable.Some? then parts.humanReadable.value + MARK else []) + parts.id;
    && filename == base + (if parts.ext.Some? then [DOT] + parts.ext.value else [])
    && (parts.ext.Some? ==> base != [] && parts.ext.value != [] && DOT !in parts.ext.value)
    && (parts.humanReadable.Some? ==>
         parts.humanReadable.value != [] && parts.id != []
           && forall k :: k > |parts.humanReadable.value| ==> !At(base, k, MARK))
  }

  /** The name parser takes a file name apart into what it is made of. */
  lemma ParsedNameMakes(filename: Str)
    ensures MadeOf(filename, ParseNameWithId(filename))
  {
    var dot := LastIndexOf(filename, [DOT]);
    if 0 < dot < |filename| - 1 {
      assert filename == filename[..dot] + filename[dot..dot + 1] + filename[dot + 1..];
      NoDotAfter(filename, dot);
      SeparatedMakes(filename[..dot], Some(filename[dot + 1..]));
    } else {
      SeparatedMakes(filename, None);
    }
  }

  lemma NoDotAfter(filename: Str, dot: nat)
    requires dot == LastIndexOf(filename, [DOT]) && dot < |filename|
    ensures DOT !in filename[dot + 1..]
  {
    if i :| dot < i < |filename| && filename[i] == DOT { assert At(filename, i, [DOT]); }
  }

  lemma SeparatedMakes(base: Str, ext: Option<Str>)
    ensures
      var parts := Separated(base, ext);
      && parts.ext == ext
      && base == (if parts.humanReadable.Some? then parts.humanReadable.value + MARK else []) + parts.id
      && (parts.humanReadable.Some? ==>
           parts.humanReadable.value != [] && parts.id != []
             && forall k :: k > |parts.humanReadable.value| ==> !At(base, k, MARK))
  {
    var at := LastIndexOf(base, MARK);
    if !(at <= 0 || at == |base| - 2) { assert base == base[..at] + base[at..at + 2] + base[at + 2..]; }
  }

  /** What is not taken apart cannot be: there is no extension, or no text and id, to tell apart. */
  lemma NothingLeftApart(filename: Str, front: Str, back: Str)
    requires front != [] && back != []
    ensures filename == front + [DOT] + back && DOT !in back ==> ParseNameWithId(filename).ext == Some(back)
    ensures SplitsAt(ParseNameWithId(filename).id, front, back) ==> ParseNameWithId(filename).humanReadable.Some?
  {
    if filename == front + [DOT] + back && DOT !in back { DotStands(filename, front, back); }
    var id := ParseNameWithId(filename).id;
    if SplitsAt(id, front, back) { LastPart(id, front, MARK, back); }
  }

  /** The text is a front and a back around its last separator. */
  ghost predicate SplitsAt(text: Str, front: Str, back: Str) {
    text == front + MARK + back && forall k :: k > |front| ==> !At(text, k, MARK)
  }

  lemma LastPart(s: Str, front: Str, part: Str, back: Str)
    requires s == front + part + back
    requires forall k :: k > |front| ==> !At(s, k, part)
    ensures LastIndexOf(s, part) == |front|
    ensures s[|front| + |part|..] == back
  {
    assert s[|front|..|front| + |part|] == part;
    assert At(s, |front|, part);
  }

  lemma DotStands(s: Str, front: Str, back: Str)
    requires s == front + [DOT] + back && DOT !in back
    ensures LastIndexOf(s, [DOT]) == |front|
    ensures s[|front| + 1..] == back
  {
    forall k | k > |front| && k + 1 <= |s| ensures !At(s, k, [DOT]) {
      assert s[k] == back[k - |front| - 1];
      assert s[k..k + 1] == [s[k]];
    }
    LastPart(s, front, [DOT], back);
  }

  /** The rules, one after the other, on the segments of a path. */
  predicate Asks(segments: seq<Str>, request: Request) {
    && segments != [] && segments[0] == U("confluence")
    && match request
       case ListPages => segments[1..] == [U("pages")] || segments[1..] == [U("pages"), []]
       case ListSpaces => segments[1..] == [U("spaces")] || segments[1..] == [U("spaces"), []]
       case ListSpacePages(id) =>
         (|segments| == 4 || (|segments| == 5 && segments[4] == [])) && segments[1] == U("spaces")
         && segments[2] != [] && segments[3] == U("pages") && ExtractId(segments[2]) == Some(id)
       case GetPage(id) =>
         || (|segments| == 5 && segments[1] == U("spaces") && segments[2] != [] && segments[3] == U("pages")
             && NamesFile(segments[4], id))
         || (|segments| == 3 && segments[1] == U("pages") && NamesFile(segments[2], id))
       case GetSpace(id) => |segments| == 3 && segments[1] == U("spaces") && NamesFile(segments[2], id)
  }

  /** A JSON file whose name before `.json` carries the id. */
  predicate NamesFile(file: Str, id: Str) {
    |file| > 5 && file[|file| - 5..] == U(".json") && ExtractId(file[..|file| - 5]) == Some(id)
  }

  lemma SegmentsRoute(rest: seq<Str>, request: Request)
    ensures RouteSegments(rest) == To(request) <==> Asks([U("confluence")] + rest, request)
  {
    var segments := [U("confluence")] + rest;
    assert segments[1..] == rest;
    LiteralsDiffer();
  }

  /** The path, trimmed and with a slash in front if it has none, consists of these segments. */
  predicate Consists(path: Str, segments: seq<Str>) {
    && AllPlain(segments) && segments != []
    && Join(segments) == (if Trim(path) != [] && Trim(path)[0] == SLASH then [] else [SLASH]) + Trim(path)
  }

  /** Every path consists of some segments. */
  lemma EveryPathConsists(path: Str)
    ensures exists segments :: Consists(path, segments)
  {
    var normal := NormalizePath(path);
    assert [] + Trim(path) == Trim(path);
    SlashSplits(normal);
    JoinSplit(normal);
    assert Consists(path, Split(normal).value);
  }

  lemma {:induction false} SlashSplits(path: Str)
    requires path != [] && path[0] == SLASH
    ensures Split(path).Some? && Split(path).value != []
  {
    var head := Head(path[1..]);
    if 1 + |head| < |path| { SlashSplits(path[1 + |head|..]); }
  }

  /** The router answers a path exactly as its segments ask. */
  lemma ResolvesIff(path: Str, segments: seq<Str>, request: Request)
    requires Consists(path, segments)
    ensures Resolve(path) == To(request) <==> Asks(segments, request)
  {
    SplitJoin(segments);
    assert NormalizePath(path) == Join(segments) by {
      assert [] + Trim(path) == Trim(path);
    }
    if segments[0] == U("confluence") {
      assert segments == [U("confluence")] + segments[1..];
      SegmentsRoute(segments[1..], request);
    }
  }

  // ---------------------------------------------------------------------------
  // Ids inside printed names
  // ---------------------------------------------------------------------------

  lemma {:induction false} AfterMarkShorter(s: Str, mark: CodeUnit)
    ensures AfterMark(s, mark).Some? ==> |AfterMark(s, mark).value| < |s| && Plain(AfterMark(s, mark).value)
  {
    if |s| >= 3 && !(s[0] == mark && s[1] == mark && Plain(s[2..])) { AfterMarkShorter(s[1..], mark); }
  }

  /** Past a slug, which has no underscore, the first `__` is the printed separator. */
  lemma {:induction false} AfterSlug(slug: Str, id: Str)
    requires UNDERSCORE !in slug && Plain(id) && id != []
    ensures AfterMark(slug + MARK + id, UNDERSCORE) == Some(id)
  {
    var s := slug + MARK + id;
    if slug == [] {
      assert s[2..] == id;
    } else {
      assert s[0] == slug[0] && slug[0] in slug;
      assert s[1..] == slug[1..] + MARK + id;
      AfterSlug(slug[1..], id);
    }
  }

  /** What a name with this slug and id decodes to. */
  function NameText(slug: Str, id: Str): Str { if slug == [] then id else slug + MARK + id }

  /** Which ids survive: any without a slash after a slug, any without an inner separator on their own. */
  predicate Recoverable(slug: Str, id: Str) {
    if slug == [] then AfterMark(id, UNDERSCORE).None? && AfterMark(id, DASH).None? else Plain(id)
  }

  lemma IdRecovered(slug: Str, id: Str)
    requires UNDERSCORE !in slug && id != []
    ensures IdOf(NameText(slug, id)) == id <==> Recoverable(slug, id)
  {
    var text := NameText(slug, id);
    AfterMarkShorter(text, UNDERSCORE);
    AfterMarkShorter(text, DASH);
    if slug != [] && Plain(id) { AfterSlug(slug, id); }
  }

  lemma {:induction false} EncodeConcat(a: Str, b: Str)
    requires (forall c :: c in a ==> Unreserved(c)) && Encode(b).Some?
    ensures Encode(a + b) == Some(a + Encode(b).value)
  {
    if a == [] {
      assert a + b == b && a + Encode(b).value == Encode(b).value;
    } else {
      assert a[0] in a && (a + b)[0] == a[0] && (a + b)[1..] == a[1..] + b;
      EncodeConcat(a[1..], b);
      assert [a[0]] + (a[1..] + Encode(b).value) == a + Encode(b).value;
    }
  }

  function SlugOf(title: Option<Str>, u: Unicode): Str {
    match title case Some(name) => Slugify(name, u) case None => []
  }

  lemma SlugUnreserved(title: Option<Str>, u: Unicode)
    ensures UNDERSCORE !in SlugOf(title, u) && forall c :: c in SlugOf(title, u) ==> Unreserved(c)
  {
    if title.Some? { SlugifyShape(title.value, u); }
  }

  /** A printed name decodes to the slug and the trimmed id. */
  lemma NameDecodes(title: Option<Str>, id: Str, u: Unicode)
    requires EncodeSegment(id).Some?
    ensures NameWithId(title, id, TextOf(u)).Some?
    ensures Decode(NameWithId(title, id, TextOf(u)).value) == Some(NameText(SlugOf(title, u), Trim(id)))
    ensures NameWithId(title, id, TextOf(u)).value != [] && Plain(NameWithId(title, id, TextOf(u)).value)
  {
    var slug := SlugOf(title, u);
    SlugUnreserved(title, u);
    SegmentFilled(id);
    DecodeEncode(Trim(id));
    if slug != [] {
      var front := slug + MARK;
      assert U("__") == MARK;
      forall c | c in front ensures Unreserved(c) { if c !in slug { assert c == UNDERSCORE; } }
      EncodeConcat(front, Trim(id));
      DecodeEncode(front + Trim(id));
      forall c | c in front ensures c != SLASH { if c !in slug { assert c == UNDERSCORE; } }
    }
  }

  // ---------------------------------------------------------------------------
  // Printed paths
  // ---------------------------------------------------------------------------

  /** A printed path is already normal. */
  lemma PrintedIsNormal(place: Place)
    ensures NormalizePath(Print(place)) == Print(place)
  {
    var path := Print(place);
    JoinEnds(Segments(place));
    TrimOfTight(path);
  }

  lemma {:induction false} JoinEnds(segments: seq<Str>)
    requires segments != [] && segments[|segments| - 1] != []
    ensures Join(segments) != [] && Join(segments)[0] == SLASH
    ensures Join(segments)[|Join(segments)| - 1] == segments[|segments| - 1][|segments[|segments| - 1]| - 1]
  {
    if |segments| > 1 {
      JoinEnds(segments[1..]);
      assert segments[1..][|segments| - 2] == segments[|segments| - 1];
    } else {
      assert Join(segments[1..]) == [];
    }
  }

  lemma ResolvePrinted(place: Place)
    requires PlainPlace(place)
    ensures Resolve(Print(place)) == RouteSegments(Directory(place) + [FileName(place) + U(".json")])
  {
    PrintedIsNormal(place);
    SegmentsPlain(place);
    ResolveJoined(Segments(place));
    assert Segments(place)[1..] == Directory(place) + [FileName(place) + U(".json")];
  }

  lemma ResolveJoined(segments: seq<Str>)
    requires AllPlain(segments) && segments != [] && segments[0] == U("confluence")
    requires NormalizePath(Join(segments)) == Join(segments)
    ensures Resolve(Join(segments)) == RouteSegments(segments[1..])
  {
    SplitJoin(segments);
  }

  /** The router finds canonical files and nothing else: every alias path is refused. */
  lemma OnlyCanonicalPathsRoute(place: Place)
    requires PlainPlace(place) && FileName(place) != []
    requires place.PageFile? && place.space.Some? ==> place.space.value != []
    ensures match place
            case PageFile(_, name) => Resolve(Print(place)) == PageRoute(name)
            case SpaceFile(name) => Resolve(Print(place)) == SpaceRoute(name)
            case _ => Resolve(Print(place)) == NoRule
  {
    ResolvePrinted(place);
    StemOf(FileName(place));
    NotPages(FileName(place));
    RouteFile(Directory(place), FileName(place) + U(".json"));
    DirectoryKinds(place);
  }

  lemma DirectoryKinds(place: Place)
    ensures place.PageFile? && place.space.None? <==> Directory(place) == [U("pages")]
    ensures place.PageFile? && place.space.Some? <==>
      |Directory(place)| == 3 && Directory(place)[0] == U("spaces") && Directory(place)[2] == U("pages")
    ensures place.SpaceFile? <==> Directory(place) == [U("spaces")]
  {
    LiteralsDiffer();
  }

  /** How a .json file in a directory is routed. */
  lemma RouteFile(directory: seq<Str>, file: Str)
    requires directory != [] && |directory| <= 3 && file != [] && file != U("pages") && Stem(file).Some?
    requires |directory| == 3 && directory[0] == U("spaces") ==> directory[1] != []
    ensures RouteSegments(directory + [file])
         == if directory == [U("pages")] then PageRoute(Stem(file).value)
            else if directory == [U("spaces")] then SpaceRoute(Stem(file).value)
            else if |directory| == 3 && directory[0] == U("spaces") && directory[2] == U("pages")
              then PageRoute(Stem(file).value)
            else NoRule
  {
    var rest := directory + [file];
    LiteralsDiffer();
    assert rest[|directory|] == file;
    assert forall i :: 0 <= i < |directory| ==> rest[i] == directory[i];
    if |directory| == 1 { assert directory == [rest[0]]; }
  }

  /** A file name ending in .json is neither empty nor a directory name. */
  lemma NotPages(file: Str)
    ensures file + U(".json") != [] && file + U(".json") != U("pages")
  {
    var s := file + U(".json");
    assert s[|s| - 1] == 110 && U("pages")[4] == 115;
  }

  /** confluencePagePath: an absent or empty space means the flat collection. */
  function PagePlace(pageId: Str, title: Option<Str>, spaceId: Option<Str>, u: Unicode): Option<Place> {
    var name :- NameWithId(title, pageId, TextOf(u));
    if spaceId.None? || spaceId.value == [] then Some(PageFile(None, name))
    else
      var space :- EncodeSegment(spaceId.value);
      Some(PageFile(Some(space), name))
  }

  /**
   * A printed page path is routed to its own page exactly when the id is recoverable from the name:
   * it has no slash when the title gives a slug, no inner `__` or `--` when it does not.
   */
  lemma PageRoutesBack(pageId: Str, title: Option<Str>, spaceId: Option<Str>, u: Unicode)
    requires PagePlace(pageId, title, spaceId, u).Some?
    ensures Resolve(Print(PagePlace(pageId, title, spaceId, u).value)) == To(GetPage(Trim(pageId)))
       <==> Recoverable(SlugOf(title, u), Trim(pageId))
    ensures Resolve(Print(PagePlace(pageId, title, spaceId, u).value)).To?
  {
    NameDecodes(title, pageId, u);
    SlugUnreserved(title, u);
    IdRecovered(SlugOf(title, u), Trim(pageId));
    if spaceId.Some? && spaceId.value != [] { SegmentFilled(spaceId.value); }
    OnlyCanonicalPathsRoute(PagePlace(pageId, title, spaceId, u).value);
  }

  /** The same for spaces. */
  lemma SpaceRoutesBack(spaceId: Str, name: Option<Str>, u: Unicode)
    requires EncodeSegment(spaceId).Some?
    ensures NameWithId(name, spaceId, TextOf(u)).Some?
    ensures Resolve(Print(SpaceFile(NameWithId(name, spaceId, TextOf(u)).value))) == To(GetSpace(Trim(spaceId)))
       <==> Recoverable(SlugOf(name, u), Trim(spaceId))
  {
    NameDecodes(name, spaceId, u);
    SlugUnreserved(name, u);
    IdRecovered(SlugOf(name, u), Trim(spaceId));
    OnlyCanonicalPathsRoute(SpaceFile(NameWithId(name, spaceId, TextOf(u)).value));
  }

  // ---------------------------------------------------------------------------
  // Numeric ids
  // ---------------------------------------------------------------------------

  predicate Numeric(s: Str) { s != [] && forall c :: c in s ==> IsDigit(c) }

  lemma {:induction false} NoMark(s: Str, mark: CodeUnit)
    requires mark !in s
    ensures AfterMark(s, mark).None?
  {
    if |s| >= 3 {
      assert s[0] in s;
      NoMark(s[1..], mark);
    }
  }

  lemma NumericFacts(id: Str)
    requires Numeric(id)
    ensures Trim(id) == id && EncodeSegment(id) == Some(id)
    ensures forall slug: Str :: Recoverable(slug, id)
  {
    assert id[0] in id && id[|id| - 1] in id;
    TrimOfTight(id);
    EncodeUnreserved(id);
    NoMark(id, UNDERSCORE);
    NoMark(id, DASH);
    assert Plain(id);
  }

  lemma UnitAt(s: Str, k: int, part: Str, j: nat)
    requires At(s, k, part) && j < |part|
    ensures s[k + j] == part[j]
  {
    assert s[k..k + |part|][j] == s[k + j];
  }

  /** The last `.` of a file name that ends in .json. */
  lemma LastDot(base: Str)
    ensures LastIndexOf(base + U(".json"), [DOT]) == |base|
  {
    var s, json := base + U(".json"), U(".json");
    assert At(s, |base|, [DOT]);
    assert forall k :: |base| < k < |s| ==> s[k] == json[k - |base|] && s[k] != DOT;
    forall k | At(s, k, [DOT]) ensures k <= |base| { UnitAt(s, k, [DOT], 0); }
  }

  lemma JsonParts(base: Str)
    ensures (base + U(".json"))[..|base|] == base && (base + U(".json"))[|base| + 1..] == U("json")
  {}

  /** The last `__` of a name is its separator when the id has no underscore. */
  lemma LastSeparator(slug: Str, id: Str)
    requires UNDERSCORE !in id
    ensures LastIndexOf(slug + MARK + id, MARK) == |slug|
  {
    var s := slug + MARK + id;
    assert At(s, |slug|, MARK);
    assert forall k :: |slug| + 2 <= k < |s| ==> s[k] == id[k - 2 - |slug|] && s[k] != UNDERSCORE;
    forall k | At(s, k, MARK) ensures k <= |slug| { UnitAt(s, k, MARK, 1); }
  }

  lemma NoSeparator(id: Str)
    requires UNDERSCORE !in id
    ensures LastIndexOf(id, MARK) == -1
  {
    if At(id, LastIndexOf(id, MARK), MARK) { UnitAt(id, LastIndexOf(id, MARK), MARK, 0); }
  }

  /** The .json extension comes off first. */
  lemma JsonNameParses(base: Str)
    requires base != []
    ensures ParseNameWithId(base + U(".json")) == Separated(base, Some(U("json")))
  {
    LastDot(base);
    JsonParts(base);
  }

  lemma SeparatedText(slug: Str, id: Str, ext: Option<Str>)
    requires UNDERSCORE !in id && id != []
    ensures Separated(NameText(slug, id), ext) == NameParts(if slug == [] then None else Some(slug), id, ext)
  {
    if slug == [] {
      NoSeparator(id);
    } else {
      LastSeparator(slug, id);
      var name := slug + MARK + id;
      assert name[|slug| + 2..] == id && name[..|slug|] == slug;
    }
  }

  lemma NumericName(title: Option<Str>, id: Str, u: Unicode)
    requires Numeric(id)
    ensures NameWithId(title, id, TextOf(u)) == Some(NameText(SlugOf(title, u), id))
  {
    NumericFacts(id);
    assert U("__") == MARK;
  }

  /** parseNameWithId reads back what nameWithId printed: slug, numeric id and extension. */
  lemma NumericNameParses(title: Option<Str>, id: Str, u: Unicode)
    requires Numeric(id)
    ensures NameWithId(title, id, TextOf(u)).Some?
    ensures ParseNameWithId(NameWithId(title, id, TextOf(u)).value + U(".json"))
         == NameParts(if SlugOf(title, u) == [] then None else Some(SlugOf(title, u)), id, Some(U("json")))
  {
    NumericName(title, id, u);
    NoUnderscore(id);
    SeparatedText(SlugOf(title, u), id, Some(U("json")));
    JsonNameParses(NameText(SlugOf(title, u), id));
  }

  lemma NoUnderscore(id: Str)
    requires Numeric(id)
    ensures UNDERSCORE !in id
  {}

  /**
   * For every title, space and numeric id the printed page path is routed back to that page, and the
   * two parsers of its file name agree on the id.
   */
  lemma NumericPagesRouteBack(pageId: Str, title: Option<Str>, spaceId: Option<Str>, u: Unicode)
    requires Numeric(pageId) && PagePlace(pageId, title, spaceId, u).Some?
    ensures Resolve(Print(PagePlace(pageId, title, spaceId, u).value)) == To(GetPage(pageId))
    ensures var name := NameWithId(title, pageId, TextOf(u)).value;
      ExtractId(name) == Some(pageId) && ParseNameWithId(name + U(".json")).id == pageId
  {
    NumericFacts(pageId);
    PageRoutesBack(pageId, title, spaceId, u);
    NumericNameParses(title, pageId, u);
    NameDecodes(title, pageId, u);
    SlugUnreserved(title, u);
    IdRecovered(SlugOf(title, u), pageId);
  }

  // ---------------------------------------------------------------------------
  // When the two parsers agree
  // ---------------------------------------------------------------------------

  /** The first `__` after a slug is also the last one. */
  predicate OneSeparator(id: Str) { LastIndexOf(MARK + id, MARK) == 0 }

  lemma AtShifted(front: Str, s: Str, k: int, part: Str)
    ensures k >= 0 ==> (At(front + s, |front| + k, part) <==> At(s, k, part))
  {
    if 0 <= k && k + |part| <= |s| { assert (front + s)[|front| + k..|front| + k + |part|] == s[k..k + |part|]; }
  }

  lemma LastShifted(front: Str, s: Str, part: Str)
    requires LastIndexOf(s, part) >= 0
    ensures LastIndexOf(front + s, part) == |front| + LastIndexOf(s, part)
  {
    AtShifted(front, s, LastIndexOf(s, part), part);
    forall k | At(front + s, k, part) ensures k <= |front| + LastIndexOf(s, part) {
      AtShifted(front, s, k - |front|, part);
    }
  }

  /** parseNameWithId reads the id off a name with a slug exactly when the id starts no further `__`. */
  lemma SeparatedAfterSlug(slug: Str, id: Str, ext: Option<Str>)
    requires slug != [] && id != []
    ensures Separated(slug + MARK + id, ext).id == id <==> OneSeparator(id)
  {
    var base := slug + MARK + id;
    assert At(MARK + id, 0, MARK);
    LastShifted(slug, MARK + id, MARK);
    assert slug + (MARK + id) == base;
    if OneSeparator(id) { assert base[|slug| + 2..] == id; }
  }

  /**
   * On a name with a slug, the parser that splits at the last `__` and the one that splits at the
   * first agree exactly when there is only one.
   */
  lemma ParsersAgree(slug: Str, id: Str)
    requires slug != [] && UNDERSCORE !in slug && id != [] && Plain(id)
    ensures ParseNameWithId(slug + MARK + id + U(".json")).id == IdOf(slug + MARK + id) <==> OneSeparator(id)
  {
    AfterSlug(slug, id);
    JsonNameParses(slug + MARK + id);
    SeparatedAfterSlug(slug, id, Some(U("json")));
  }

  /** So they part on every id that starts with an underscore. */
  lemma ParsersDisagree(slug: Str, id: Str)
    requires slug != [] && UNDERSCORE !in slug && id != [] && Plain(id) && id[0] == UNDERSCORE
    ensures IdOf(slug + MARK + id) == id && ParseNameWithId(slug + MARK + id + U(".json")).id != id
  {
    AfterSlug(slug, id);
    assert At(MARK + id, 1, MARK);
    ParsersAgree(slug, id);
  }

  /** The base name as a whole has no inner `__`. */
  predicate Unsplit(base: Str) {
    var at := LastIndexOf(base, MARK);
    at <= 0 || at == |base| - 2
  }

  /**
   * For every title and every id that needs no escape, parseNameWithId gives the printed id back
   * exactly when the id starts no `__` after a slug, or has no inner one without.
   */
  lemma NameParsesBack(title: Option<Str>, id: Str, u: Unicode)
    requires EncodeSegment(id) == Some(Trim(id))
    ensures NameWithId(title, id, TextOf(u)).Some?
    ensures ParseNameWithId(NameWithId(title, id, TextOf(u)).value + U(".json")).id == Trim(id)
      <==> if SlugOf(title, u) == [] then Unsplit(Trim(id)) else OneSeparator(Trim(id))
  {
    var slug := SlugOf(title, u);
    assert U("__") == MARK;
    JsonNameParses(NameText(slug, Trim(id)));
    if slug != [] { SeparatedAfterSlug(slug, Trim(id), Some(U("json"))); }
  }
}
