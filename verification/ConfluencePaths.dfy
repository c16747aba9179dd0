/**
 * Where Confluence pages and spaces are stored: the canonical path and the by-* aliases of a
 * record (packages/confluence/src/path-mapper.ts:84-97, 174-278 and
 * packages/confluence/src/confluence-adapter.ts:306-345, 442-449).
 */
module ConfluencePaths {
  import opened Wrappers
  import opened JsStrings
  import opened PathSegments
  import opened UriCodec
  import opened StatusSlugs
  import opened AliasSlugs

  datatype Kind = Page | Space

  /** The texts that paths are made of: encoded segments and slugs. */
  datatype Text = Text(segment: Str -> Option<Str>, name: Str -> Str, alias: Str -> Str,
                       slugifies: Str -> bool, status: Str -> Option<Str>)

  /** The file name of a by-title alias: the encoded slug, whose printing never throws. */
  function TitleSegment(title: Str, u: Unicode): Str {
    match EncodeSegment(ConfluenceAlias(title, u)) case Some(text) => text case None => []
  }

  function TextOf(u: Unicode): Text {
    Text(EncodeSegment, s => Slugify(s, u), s => TitleSegment(s, u), s => Slugifies(s, u), s => StatusSlug(s, u))
  }

  predicate Filled(s: Str) { s != [] && Plain(s) }

  ghost predicate GoodText(t: Text) {
    && (forall s: Str :: t.segment(s).Some? ==> Filled(t.segment(s).value))
    && (forall s: Str :: t.segment(Trim(s)) == t.segment(s))
    && (forall a: Str, b: Str :: t.segment(a).Some? && t.segment(a) == t.segment(b) ==> Trim(a) == Trim(b))
    && (forall s: Str :: SlugShape(t.name(s)))
    && (forall s: Str :: SlugShape(t.alias(s)) && t.alias(s) != [])
    && (forall s: Str :: t.status(s).Some? ==> Filled(t.status(s).value))
  }

  lemma SegmentFilled(s: Str)
    requires EncodeSegment(s).Some?
    ensures Filled(EncodeSegment(s).value)
  {
    EncodeAlphabet(Trim(s));
  }

  /** A slug stands for itself as a path segment. */
  lemma SlugEncodes(title: Str, u: Unicode)
    ensures EncodeSegment(ConfluenceAlias(title, u)) == Some(ConfluenceAlias(title, u))
    ensures TitleSegment(title, u) == ConfluenceAlias(title, u)
  {
    ConfluenceAliasShape(title, u);
    TrimOfTight(ConfluenceAlias(title, u));
    EncodeUnreserved(ConfluenceAlias(title, u));
  }

  lemma TextIsGood(u: Unicode)
    ensures GoodText(TextOf(u))
  {
    forall s: Str | EncodeSegment(s).Some? ensures Filled(EncodeSegment(s).value) { SegmentFilled(s); }
    forall s: Str ensures EncodeSegment(Trim(s)) == EncodeSegment(s) { TrimTwice(s); }
    forall a: Str, b: Str | EncodeSegment(a).Some? && EncodeSegment(a) == EncodeSegment(b) ensures Trim(a) == Trim(b) {
      EncodeInjective(Trim(a), Trim(b));
    }
    forall s: Str ensures SlugShape(Slugify(s, u)) && SlugShape(TitleSegment(s, u)) && TitleSegment(s, u) != [] {
      SlugifyShape(s, u);
      ConfluenceAliasShape(s, u);
      SlugEncodes(s, u);
    }
    forall s: Str | StatusSlug(s, u).Some? ensures Filled(StatusSlug(s, u).value) { StatusSlugPlain(s, u); }
  }

  lemma StatusSlugPlain(status: Str, u: Unicode)
    requires StatusSlug(status, u).Some?
    ensures Plain(StatusSlug(status, u).value) && StatusSlug(status, u).value != []
  {
    StatusSlugDefined(status, u);
  }

  /** What a record's payload says about its paths; `rest` stands for everything else in it. */
  datatype Payload = Payload(title: Option<Str>, name: Option<Str>, status: Option<Str>, spaceId: Option<Str>,
                             parentId: Option<Str>, key: Option<Str>, deleted: bool, rest: Str)

  /** The fields that matter, as readString reads them. */
  datatype Fields = Fields(title: Option<Str>, name: Option<Str>, status: Option<Str>, spaceId: Option<Str>,
                           parentId: Option<Str>, key: Option<Str>)

  function FieldsOf(payload: Payload): Fields {
    Fields(ReadString(payload.title), ReadString(payload.name), ReadString(payload.status),
           ReadString(payload.spaceId), ReadString(payload.parentId), ReadString(payload.key))
  }

  /** A place a record is stored at, its parts already encoded. */
  datatype Place =
    | PageFile(space: Option<Str>, name: Str)
    | PageById(id: Str)
    | PageByTitle(slug: Str)
    | PageByState(status: Str, id: Str)
    | PageByEdited(date: Str, id: Str)
    | PageBySpace(inSpace: Str, id: Str)
    | PageByParent(parent: Str, id: Str)
    | SpaceFile(name: Str)
    | SpaceById(id: Str)
    | SpaceByTitle(slug: Str)
    | SpaceByKey(key: Str)

  function Directory(place: Place): seq<Str> {
    match place
    case PageFile(None, _) => [U("pages")]
    case PageFile(Some(space), _) => [U("spaces"), space, U("pages")]
    case PageById(_) => [U("pages"), U("by-id")]
    case PageByTitle(_) => [U("pages"), U("by-title")]
    case PageByState(status, _) => [U("pages"), U("by-state"), status]
    case PageByEdited(date, _) => [U("pages"), U("by-edited"), date]
    case PageBySpace(space, _) => [U("pages"), U("by-space"), space]
    case PageByParent(parent, _) => [U("pages"), U("by-parent"), parent]
    case SpaceFile(_) => [U("spaces")]
    case SpaceById(_) => [U("spaces"), U("by-id")]
    case SpaceByTitle(_) => [U("spaces"), U("by-title")]
    case SpaceByKey(_) => [U("spaces"), U("by-key")]
  }

  function FileName(place: Place): Str {
    match place
    case PageFile(_, name) => name
    case SpaceFile(name) => name
    case PageById(id) => id
    case SpaceById(id) => id
    case PageByTitle(slug) => slug
    case SpaceByTitle(slug) => slug
    case PageByState(_, id) => id
    case PageByEdited(_, id) => id
    case PageBySpace(_, id) => id
    case PageByParent(_, id) => id
    case SpaceByKey(key) => key
  }

  function Segments(place: Place): seq<Str> {
    [U("confluence")] + Directory(place) + [FileName(place) + U(".json")]
  }

  /** The path of a place. */
  function Print(place: Place): Str { Join(Segments(place)) }

  /** nameWithId, without existing names. */
  function NameWithId(humanReadable: Option<Str>, id: Str, t: Text): Option<Str> {
    var encoded :- t.segment(id);
    var slug := match humanReadable case Some(name) => t.name(name) case None => [];
    Some(if slug == [] then encoded else slug + U("__") + encoded)
  }

  function Encoded(field: Option<Str>, encode: Str -> Option<Str>): Option<Str> {
    if field.Some? then encode(field.value) else None
  }

  /** pathForEvent */
  function CanonicalPlace(kind: Kind, id: Str, fields: Fields, t: Text): Option<Place> {
    var title := OrElse(fields.title, fields.name);
    var name :- NameWithId(title, Trim(id), t);
    match kind
    case Space => Some(SpaceFile(name))
    case Page =>
      match fields.spaceId
      case None => Some(PageFile(None, name))
      case Some(spaceId) =>
        var space :- t.segment(spaceId);
        Some(PageFile(Some(space), name))
  }

  /** The alias an optional field calls for: none when the field is absent, None when printing throws. */
  function AliasFor(field: Option<Str>, placeOf: Str -> Option<Place>): Option<seq<Place>> {
    match field
    case None => Some([])
    case Some(text) =>
      var place :- placeOf(text);
      Some([place])
  }

  /** The by-title alias, skipped when the title has nothing to slug. */
  function TitleAlias(field: Option<Str>, kind: Kind, t: Text): seq<Place> {
    match field
    case None => []
    case Some(title) =>
      if !t.slugifies(title) then []
      else [if kind == Page then PageByTitle(t.alias(title)) else SpaceByTitle(t.alias(title))]
  }

  /** aliasPathsForEvent, from the encoded id on. */
  function AliasPlacesOf(kind: Kind, id: Str, fields: Fields, t: Text): Option<seq<Place>> {
    match kind
    case Page =>
      var byState :- AliasFor(fields.status, PageByStateOf(id, t));
      var bySpace :- AliasFor(fields.spaceId, PageBySpaceOf(id, t));
      var byParent :- AliasFor(fields.parentId, PageByParentOf(id, t));
      Some([PageById(id)] + TitleAlias(fields.title, Page, t) + byState + bySpace + byParent)
    case Space =>
      var byKey :- AliasFor(fields.key, SpaceByKeyOf(t));
      var name := OrElse(fields.name, fields.title);
      Some([SpaceById(id)] + TitleAlias(name, Space, t) + byKey)
  }

  function AliasPlaces(kind: Kind, rawId: Str, fields: Fields, t: Text): Option<seq<Place>> {
    var id :- t.segment(rawId);
    AliasPlacesOf(kind, id, fields, t)
  }

  function PageByStateOf(id: Str, t: Text): Str -> Option<Place> {
    status => match t.status(status) case Some(slug) => Some(PageByState(slug, id)) case None => None
  }

  function PageBySpaceOf(id: Str, t: Text): Str -> Option<Place> {
    spaceId => match t.segment(spaceId) case Some(space) => Some(PageBySpace(space, id)) case None => None
  }

  function PageByParentOf(id: Str, t: Text): Str -> Option<Place> {
    parentId => match t.segment(parentId) case Some(parent) => Some(PageByParent(parent, id)) case None => None
  }

  function SpaceByKeyOf(t: Text): Str -> Option<Place> {
    key => match t.segment(key) case Some(text) => Some(SpaceByKey(text)) case None => None
  }

  /** Every place of a record: its canonical file, then its aliases. None when a path cannot be printed. */
  function Places(kind: Kind, id: Str, fields: Fields, t: Text): Option<seq<Place>> {
    var canonical :- CanonicalPlace(kind, id, fields, t);
    var aliases :- AliasPlaces(kind, id, fields, t);
    Some([canonical] + aliases)
  }

  /** The alias that depends on nothing but the id. */
  function Anchor(kind: Kind, id: Str, t: Text): Option<Place> {
    var encoded :- t.segment(id);
    Some(if kind == Page then PageById(encoded) else SpaceById(encoded))
  }

  // ---------------------------------------------------------------------------
  // Paths and places are one to one
  // ---------------------------------------------------------------------------

  predicate PlainPlace(place: Place) {
    && Plain(FileName(place))
    && match place
       case PageFile(Some(space), _) => Plain(space)
       case PageByState(status, _) => Plain(status)
       case PageByEdited(date, _) => Plain(date)
       case PageBySpace(space, _) => Plain(space)
       case PageByParent(parent, _) => Plain(parent)
       case _ => true
  }

  lemma LiteralsDiffer()
    ensures U("pages") != U("spaces") && U("by-id") != U("by-title") && U("by-id") != U("by-key")
      && U("by-title") != U("by-key")
    ensures U("by-state") != U("by-space") && U("by-state") != U("by-parent") && U("by-space") != U("by-parent")
    ensures U("by-id") != U("by-state") && U("by-id") != U("by-space") && U("by-id") != U("by-parent")
    ensures U("by-edited") != U("by-id") && U("by-edited") != U("by-title") && U("by-edited") != U("by-state")
    ensures U("by-edited") != U("by-space") && U("by-edited") != U("by-parent")
    ensures U("by-title") != U("by-state") && U("by-title") != U("by-space") && U("by-title") != U("by-parent")
  {
    assert U("by-edited")[3] == 101 && U("by-parent")[3] == 112;
    assert U("by-state")[4] == 116 && U("by-space")[4] == 112;
    assert U("by-title")[3] == 116 && U("by-state")[3] == 115 && U("by-space")[3] == 115;
  }

  lemma BucketsPlain()
    ensures Plain(U("by-id")) && Plain(U("by-title")) && Plain(U("by-state")) && Plain(U("by-space"))
    ensures Plain(U("by-parent")) && Plain(U("by-key")) && Plain(U("by-edited"))
  {}

  lemma RootsPlain()
    ensures Plain(U("confluence")) && Plain(U("pages")) && Plain(U("spaces")) && Plain(U(".json"))
  {}

  lemma SegmentsPlain(place: Place)
    requires PlainPlace(place)
    ensures AllPlain(Segments(place))
  {
    RootsPlain();
    DirectoryPlain(place);
    var file := FileName(place) + U(".json");
    assert Plain(file);
  }

  lemma DirectoryPlain(place: Place)
    requires PlainPlace(place)
    ensures AllPlain(Directory(place))
  {
    RootsPlain();
    BucketsPlain();
  }

  lemma SegmentsInjective(a: Place, b: Place)
    requires Segments(a) == Segments(b)
    ensures a == b
  {
    LiteralsDiffer();
    var x, y := Segments(a), Segments(b);
    assert x[|x| - 1] == FileName(a) + U(".json") && y[|y| - 1] == FileName(b) + U(".json");
    assert FileName(a) == x[|x| - 1][..|FileName(a)|] && FileName(b) == y[|y| - 1][..|FileName(b)|];
    assert Directory(a) == x[1..|x| - 1] && Directory(b) == y[1..|y| - 1];
    SameDirectory(a, b);
  }

  lemma SameDirectory(a: Place, b: Place)
    requires Directory(a) == Directory(b) && FileName(a) == FileName(b)
    ensures a == b
  {
    LiteralsDiffer();
    var x, y := Directory(a), Directory(b);
    assert |x| == |y| && x[0] == y[0] && (|x| > 1 ==> x[1] == y[1]) && (|x| > 2 ==> x[2] == y[2]);
  }

  lemma PrintInjective(a: Place, b: Place)
    requires PlainPlace(a) && PlainPlace(b) && Print(a) == Print(b)
    ensures a == b
  {
    SegmentsPlain(a);
    SegmentsPlain(b);
    JoinInjective(Segments(a), Segments(b));
    SegmentsInjective(a, b);
  }

  // ---------------------------------------------------------------------------
  // The places of one record
  // ---------------------------------------------------------------------------

  lemma SlugPlain(s: Str)
    requires SlugShape(s)
    ensures Plain(s) && UNDERSCORE !in s
  {}

  lemma NamePlain(name: Option<Str>, id: Str, t: Text)
    requires NameWithId(name, id, t).Some? && GoodText(t)
    ensures Plain(NameWithId(name, id, t).value)
  {
    if name.Some? { SlugPlain(t.name(name.value)); }
  }

  /** The order in which a record lists its places. */
  function Rank(place: Place): nat {
    match place
    case PageFile(_, _) => 0
    case SpaceFile(_) => 0
    case PageById(_) => 1
    case SpaceById(_) => 1
    case PageByTitle(_) => 2
    case SpaceByTitle(_) => 2
    case PageByState(_, _) => 3
    case SpaceByKey(_) => 3
    case PageByEdited(_, _) => 4
    case PageBySpace(_, _) => 5
    case PageByParent(_, _) => 6
  }

  function KindOf(place: Place): Kind {
    if place.SpaceFile? || place.SpaceById? || place.SpaceByTitle? || place.SpaceByKey? then Space else Page
  }

  /** A place of a record with this kind and encoded id: whatever names an id names this one. */
  predicate Names(place: Place, kind: Kind, id: Str) {
    && PlainPlace(place) && KindOf(place) == kind
    && match place
       case PageById(i) => i == id
       case SpaceById(i) => i == id
       case PageByState(_, i) => i == id
       case PageByEdited(_, i) => i == id
       case PageBySpace(_, i) => i == id
       case PageByParent(_, i) => i == id
       case _ => true
  }

  /** Places of one record in listing order, ranked from lo to hi. */
  ghost predicate Listed(places: seq<Place>, kind: Kind, id: Str, lo: nat, hi: nat) {
    && (forall i :: 0 <= i < |places| ==> Names(places[i], kind, id) && lo <= Rank(places[i]) < hi)
    && (forall i, j :: 0 <= i < j < |places| ==> Rank(places[i]) < Rank(places[j]))
  }

  lemma ListedConcat(a: seq<Place>, b: seq<Place>, kind: Kind, id: Str, lo: nat, mid: nat, hi: nat)
    requires lo <= mid <= hi && Listed(a, kind, id, lo, mid) && Listed(b, kind, id, mid, hi)
    ensures Listed(a + b, kind, id, lo, hi)
  {}

  lemma TitleListed(field: Option<Str>, kind: Kind, t: Text, id: Str)
    requires GoodText(t)
    ensures Listed(TitleAlias(field, kind, t), kind, id, 2, 3)
  {
    if field.Some? { SlugPlain(t.alias(field.value)); }
  }

  lemma StateListed(id: Str, t: Text)
    requires Plain(id) && GoodText(t)
    ensures forall s: Str :: PageByStateOf(id, t)(s).Some? ==>
      Names(PageByStateOf(id, t)(s).value, Page, id) && Rank(PageByStateOf(id, t)(s).value) == 3
  {}

  lemma FieldListed(field: Option<Str>, placeOf: Str -> Option<Place>, kind: Kind, id: Str, rank: nat)
    requires AliasFor(field, placeOf).Some?
    requires forall s: Str :: placeOf(s).Some? ==> Names(placeOf(s).value, kind, id) && Rank(placeOf(s).value) == rank
    ensures Listed(AliasFor(field, placeOf).value, kind, id, rank, rank + 1)
  {}

  lemma SpaceAndParent(id: Str, t: Text)
    requires GoodText(t) && Plain(id)
    ensures forall s: Str :: PageBySpaceOf(id, t)(s).Some? ==>
      Names(PageBySpaceOf(id, t)(s).value, Page, id) && Rank(PageBySpaceOf(id, t)(s).value) == 5
    ensures forall s: Str :: PageByParentOf(id, t)(s).Some? ==>
      Names(PageByParentOf(id, t)(s).value, Page, id) && Rank(PageByParentOf(id, t)(s).value) == 6
    ensures forall s: Str :: SpaceByKeyOf(t)(s).Some? ==>
      Names(SpaceByKeyOf(t)(s).value, Space, id) && Rank(SpaceByKeyOf(t)(s).value) == 3
  {}

  lemma PageAliasesListed(id: Str, fields: Fields, t: Text)
    requires GoodText(t) && Plain(id) && AliasPlacesOf(Page, id, fields, t).Some?
    ensures Listed(AliasPlacesOf(Page, id, fields, t).value, Page, id, 1, 7)
    ensures AliasPlacesOf(Page, id, fields, t).value[0] == PageById(id)
  {
    SpaceAndParent(id, t);
    StateListed(id, t);
    TitleListed(fields.title, Page, t, id);
    FieldListed(fields.status, PageByStateOf(id, t), Page, id, 3);
    FieldListed(fields.spaceId, PageBySpaceOf(id, t), Page, id, 5);
    FieldListed(fields.parentId, PageByParentOf(id, t), Page, id, 6);
    ListedFive(id, TitleAlias(fields.title, Page, t),
               AliasFor(fields.status, PageByStateOf(id, t)).value,
               AliasFor(fields.spaceId, PageBySpaceOf(id, t)).value,
               AliasFor(fields.parentId, PageByParentOf(id, t)).value);
  }

  lemma ListedFive(id: Str, byTitle: seq<Place>, byState: seq<Place>, bySpace: seq<Place>, byParent: seq<Place>)
    requires Plain(id) && Listed(byTitle, Page, id, 2, 3) && Listed(byState, Page, id, 3, 5)
    requires Listed(bySpace, Page, id, 5, 6) && Listed(byParent, Page, id, 6, 7)
    ensures Listed([PageById(id)] + byTitle + byState + bySpace + byParent, Page, id, 1, 7)
  {
    ListedConcat([PageById(id)], byTitle, Page, id, 1, 2, 3);
    ListedConcat([PageById(id)] + byTitle, byState, Page, id, 1, 3, 5);
    ListedConcat([PageById(id)] + byTitle + byState, bySpace, Page, id, 1, 5, 6);
    ListedConcat([PageById(id)] + byTitle + byState + bySpace, byParent, Page, id, 1, 6, 7);
  }

  lemma SpaceAliasesListed(id: Str, fields: Fields, t: Text)
    requires GoodText(t) && Plain(id) && AliasPlacesOf(Space, id, fields, t).Some?
    ensures Listed(AliasPlacesOf(Space, id, fields, t).value, Space, id, 1, 7)
    ensures AliasPlacesOf(Space, id, fields, t).value[0] == SpaceById(id)
  {
    var name := OrElse(fields.name, fields.title);
    SpaceAndParent(id, t);
    TitleListed(name, Space, t, id);
    FieldListed(fields.key, SpaceByKeyOf(t), Space, id, 3);
    var byTitle, byKey := TitleAlias(name, Space, t), AliasFor(fields.key, SpaceByKeyOf(t)).value;
    ListedConcat([SpaceById(id)], byTitle, Space, id, 1, 2, 3);
    ListedConcat([SpaceById(id)] + byTitle, byKey, Space, id, 1, 3, 4);
  }

  lemma FileNames(space: Option<Str>, name: Str, id: Str)
    requires Plain(name) && (space.Some? ==> Plain(space.value))
    ensures Names(PageFile(space, name), Page, id) && Rank(PageFile(space, name)) == 0
    ensures Names(SpaceFile(name), Space, id) && Rank(SpaceFile(name)) == 0
  {}

  lemma CanonicalListed(kind: Kind, id: Str, fields: Fields, t: Text)
    requires GoodText(t) && CanonicalPlace(kind, id, fields, t).Some?
    ensures t.segment(id).Some?
    ensures
      var place := CanonicalPlace(kind, id, fields, t).value;
      Names(place, kind, t.segment(id).value) && Rank(place) == 0
  {
    var title := OrElse(fields.title, fields.name);
    NamePlain(title, Trim(id), t);
    assert t.segment(Trim(id)) == t.segment(id);
    var name, space := NameWithId(title, Trim(id), t).value, Encoded(fields.spaceId, t.segment);
    FileNames(if kind == Page then space else None, name, t.segment(id).value);
  }

  lemma AliasesListed(kind: Kind, id: Str, fields: Fields, t: Text)
    requires GoodText(t) && Plain(id) && AliasPlacesOf(kind, id, fields, t).Some?
    ensures Listed(AliasPlacesOf(kind, id, fields, t).value, kind, id, 1, 7)
    ensures AliasPlacesOf(kind, id, fields, t).value[0] == if kind == Page then PageById(id) else SpaceById(id)
  {
    match kind
    case Page => PageAliasesListed(id, fields, t);
    case Space => SpaceAliasesListed(id, fields, t);
  }

  lemma FirstAndRest(first: Place, rest: seq<Place>, kind: Kind, id: Str)
    requires Names(first, kind, id) && Rank(first) == 0 && Listed(rest, kind, id, 1, 7) && rest != []
    ensures Listed([first] + rest, kind, id, 0, 7) && rest[0] in [first] + rest
  {
    ListedConcat([first], rest, kind, id, 0, 1, 7);
    assert ([first] + rest)[1] == rest[0];
  }

  lemma PlacesParts(kind: Kind, id: Str, fields: Fields, t: Text)
    returns (encoded: Str, canonical: Place, aliases: seq<Place>)
    requires Places(kind, id, fields, t).Some?
    ensures CanonicalPlace(kind, id, fields, t) == Some(canonical)
    ensures t.segment(id) == Some(encoded) && AliasPlacesOf(kind, encoded, fields, t) == Some(aliases)
    ensures Places(kind, id, fields, t) == Some([canonical] + aliases)
  {
    encoded := t.segment(id).value;
    canonical := CanonicalPlace(kind, id, fields, t).value;
    aliases := AliasPlaces(kind, id, fields, t).value;
  }

  lemma PartsListed(kind: Kind, id: Str, fields: Fields, t: Text)
    returns (encoded: Str, canonical: Place, aliases: seq<Place>)
    requires GoodText(t) && Places(kind, id, fields, t).Some?
    ensures t.segment(id) == Some(encoded) && Places(kind, id, fields, t) == Some([canonical] + aliases)
    ensures Names(canonical, kind, encoded) && Rank(canonical) == 0 && Listed(aliases, kind, encoded, 1, 7)
    ensures aliases != [] && Anchor(kind, id, t) == Some(aliases[0])
  {
    encoded, canonical, aliases := PlacesParts(kind, id, fields, t);
    CanonicalListed(kind, id, fields, t);
    AliasesListed(kind, encoded, fields, t);
  }

  /** A record's places: each once, all naming its id, the anchor among them. */
  lemma PlacesListed(kind: Kind, id: Str, fields: Fields, t: Text)
    requires GoodText(t) && Places(kind, id, fields, t).Some?
    ensures t.segment(id).Some? && Anchor(kind, id, t).Some?
    ensures Anchor(kind, id, t).value in Places(kind, id, fields, t).value
    ensures Listed(Places(kind, id, fields, t).value, kind, t.segment(id).value, 0, 7)
  {
    var encoded, canonical, aliases := PartsListed(kind, id, fields, t);
    FirstAndRest(canonical, aliases, kind, encoded);
  }

  /** Only the trimmed id matters. */
  lemma PlacesOfTrimmed(kind: Kind, a: Str, b: Str, fields: Fields, t: Text)
    requires GoodText(t) && Trim(a) == Trim(b)
    ensures Places(kind, a, fields, t) == Places(kind, b, fields, t)
    ensures Anchor(kind, a, t) == Anchor(kind, b, t)
  {
    assert t.segment(Trim(a)) == t.segment(Trim(b));
    assert AliasPlaces(kind, a, fields, t) == AliasPlaces(kind, b, fields, t);
  }

  lemma AnchorInjective(k: Kind, a: Str, l: Kind, b: Str, t: Text)
    requires GoodText(t) && Anchor(k, a, t).Some? && Anchor(k, a, t) == Anchor(l, b, t)
    ensures k == l && Trim(a) == Trim(b)
  {}

  /** The same of the paths they print to. */
  lemma PrintedAnchors(k: Kind, a: Str, l: Kind, b: Str, t: Text)
    requires GoodText(t) && Anchor(k, a, t).Some? && Anchor(l, b, t).Some?
    requires Print(Anchor(k, a, t).value) == Print(Anchor(l, b, t).value)
    ensures k == l && Trim(a) == Trim(b)
  {
    PrintInjective(Anchor(k, a, t).value, Anchor(l, b, t).value);
    AnchorInjective(k, a, l, b, t);
  }
}
