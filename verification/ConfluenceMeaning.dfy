/**
 * What Confluence ingestion promises in terms of an event's own fields: which paths each field calls
 * for, what one event does, and which record a path leads to after a run
 * (packages/confluence/src/confluence-adapter.ts:114-157, 306-345, 442-453).
 */
module ConfluenceMeaning {
  import opened Wrappers
  import opened JsStrings
  import opened PathSegments
  import opened UriCodec
  import opened StatusSlugs
  import opened AliasSlugs
  import opened ConfluencePaths
  import opened ConfluenceAdapter
  import opened ConfluenceRuns
  import opened AliasStore
  import opened Latest

  // ---------------------------------------------------------------------------
  // Which field calls for which path
  // ---------------------------------------------------------------------------

  predicate StatusReads(field: Option<Str>, slug: Str, u: Unicode) {
    ReadString(field).Some? && StatusSlug(ReadString(field).value, u) == Some(slug)
  }

  predicate TitleReads(title: Option<Str>, slug: Str, u: Unicode) {
    title.Some? && Slugifies(title.value, u) && slug == ConfluenceAlias(title.value, u)
  }

  /** The file name of a record: its id, after the slug of its title if it has one. */
  predicate FileReads(title: Option<Str>, id: Str, name: Str, u: Unicode) {
    && EncodeSegment(id).Some?
    && if title.Some? && Slugify(title.value, u) != [] then
         name == Slugify(title.value, u) + U("__") + EncodeSegment(id).value
       else name == EncodeSegment(id).value
  }

  /** The record's own fields call for this place. */
  predicate CallsFor(place: Place, kind: Kind, id: Str, payload: Payload, u: Unicode) {
    match place
    case PageFile(space, name) =>
      && kind == Page && FileReads(OrElse(ReadString(payload.title), ReadString(payload.name)), id, name, u)
      && if space.Some? then EncodesTo(payload.spaceId, space.value) else ReadString(payload.spaceId).None?
    case PageById(i) => kind == Page && EncodeSegment(id) == Some(i)
    case PageByTitle(slug) => kind == Page && TitleReads(ReadString(payload.title), slug, u)
    case PageByState(status, i) =>
      kind == Page && EncodeSegment(id) == Some(i) && StatusReads(payload.status, status, u)
    case PageByEdited(_, _) => false
    case PageBySpace(space, i) => kind == Page && EncodeSegment(id) == Some(i) && EncodesTo(payload.spaceId, space)
    case PageByParent(parent, i) =>
      kind == Page && EncodeSegment(id) == Some(i) && EncodesTo(payload.parentId, parent)
    case SpaceFile(name) =>
      kind == Space && FileReads(OrElse(ReadString(payload.title), ReadString(payload.name)), id, name, u)
    case SpaceById(i) => kind == Space && EncodeSegment(id) == Some(i)
    case SpaceByTitle(slug) =>
      kind == Space && TitleReads(OrElse(ReadString(payload.name), ReadString(payload.title)), slug, u)
    case SpaceByKey(key) => kind == Space && EncodesTo(payload.key, key)
  }

  /** Every path that the fields call for can be printed. */
  predicate Printable(kind: Kind, id: Str, payload: Payload, u: Unicode) {
    && EncodeSegment(id).Some?
    && match kind
       case Page =>
         && Encodable(payload.spaceId) && Encodable(payload.parentId)
         && (ReadString(payload.status).Some? ==> StatusSlug(ReadString(payload.status).value, u).Some?)
       case Space => Encodable(payload.key)
  }

  /** The segments of each kind of path. */
  function Spelled(place: Place): seq<Str> {
    match place
    case PageFile(None, name) => [U("confluence"), U("pages"), name + U(".json")]
    case PageFile(Some(space), name) => [U("confluence"), U("spaces"), space, U("pages"), name + U(".json")]
    case PageById(id) => [U("confluence"), U("pages"), U("by-id"), id + U(".json")]
    case PageByTitle(slug) => [U("confluence"), U("pages"), U("by-title"), slug + U(".json")]
    case PageByState(status, id) => [U("confluence"), U("pages"), U("by-state"), status, id + U(".json")]
    case PageByEdited(date, id) => [U("confluence"), U("pages"), U("by-edited"), date, id + U(".json")]
    case PageBySpace(space, id) => [U("confluence"), U("pages"), U("by-space"), space, id + U(".json")]
    case PageByParent(parent, id) => [U("confluence"), U("pages"), U("by-parent"), parent, id + U(".json")]
    case SpaceFile(name) => [U("confluence"), U("spaces"), name + U(".json")]
    case SpaceById(id) => [U("confluence"), U("spaces"), U("by-id"), id + U(".json")]
    case SpaceByTitle(slug) => [U("confluence"), U("spaces"), U("by-title"), slug + U(".json")]
    case SpaceByKey(key) => [U("confluence"), U("spaces"), U("by-key"), key + U(".json")]
  }

  lemma PrintsAsSpelled(place: Place)
    ensures Print(place) == Join(Spelled(place))
  {
    assert Segments(place) == Spelled(place);
  }

  // ---------------------------------------------------------------------------
  // The listed places are those the fields call for
  // ---------------------------------------------------------------------------

  lemma InAliasFor(field: Option<Str>, placeOf: Str -> Option<Place>, place: Place)
    requires AliasFor(field, placeOf).Some?
    ensures place in AliasFor(field, placeOf).value <==> field.Some? && placeOf(field.value) == Some(place)
  {}

  lemma InFive(place: Place, first: Place, a: seq<Place>, b: seq<Place>, c: seq<Place>, d: seq<Place>)
    ensures place in [first] + a + b + c + d
      <==> place == first || place in a || place in b || place in c || place in d
  {}

  lemma InTitleAlias(place: Place, title: Option<Str>, kind: Kind, u: Unicode)
    ensures place in TitleAlias(title, kind, TextOf(u)) <==>
      match place
      case PageByTitle(slug) => kind == Page && TitleReads(title, slug, u)
      case SpaceByTitle(slug) => kind == Space && TitleReads(title, slug, u)
      case _ => false
  {
    if title.Some? { SlugEncodes(title.value, u); }
  }

  lemma PageAliasesAre(place: Place, id: Str, rawId: Str, payload: Payload, u: Unicode, aliases: seq<Place>)
    requires EncodeSegment(rawId) == Some(id) && AliasPlacesOf(Page, id, FieldsOf(payload), TextOf(u)) == Some(aliases)
    ensures place in aliases <==> !place.PageFile? && CallsFor(place, Page, rawId, payload, u)
  {
    var t, fields := TextOf(u), FieldsOf(payload);
    InTitleAlias(place, fields.title, Page, u);
    InAliasFor(fields.status, PageByStateOf(id, t), place);
    InAliasFor(fields.spaceId, PageBySpaceOf(id, t), place);
    InAliasFor(fields.parentId, PageByParentOf(id, t), place);
    InFive(place, PageById(id), TitleAlias(fields.title, Page, t), AliasFor(fields.status, PageByStateOf(id, t)).value,
           AliasFor(fields.spaceId, PageBySpaceOf(id, t)).value,
           AliasFor(fields.parentId, PageByParentOf(id, t)).value);
  }

  lemma SpaceAliasesAre(place: Place, id: Str, rawId: Str, payload: Payload, u: Unicode, aliases: seq<Place>)
    requires EncodeSegment(rawId) == Some(id) && AliasPlacesOf(Space, id, FieldsOf(payload), TextOf(u)) == Some(aliases)
    ensures place in aliases <==> !place.SpaceFile? && CallsFor(place, Space, rawId, payload, u)
  {
    var t, fields := TextOf(u), FieldsOf(payload);
    var name := OrElse(fields.name, fields.title);
    InTitleAlias(place, name, Space, u);
    InAliasFor(fields.key, SpaceByKeyOf(t), place);
    InFive(place, SpaceById(id), TitleAlias(name, Space, t), AliasFor(fields.key, SpaceByKeyOf(t)).value, [], []);
    assert aliases + [] + [] == aliases;
  }

  lemma CanonicalIs(place: Place, kind: Kind, id: Str, payload: Payload, u: Unicode, canonical: Place)
    requires CanonicalPlace(kind, id, FieldsOf(payload), TextOf(u)) == Some(canonical)
    ensures place == canonical <==>
      (place.PageFile? || place.SpaceFile?) && CallsFor(place, kind, id, payload, u)
  {
    var fields := FieldsOf(payload);
    var title := OrElse(fields.title, fields.name);
    TrimTwice(id);
    FileReadsIff(title, id, u);
  }

  lemma FileReadsIff(title: Option<Str>, id: Str, u: Unicode)
    ensures forall name :: NameWithId(title, Trim(id), TextOf(u)) == Some(name) <==> FileReads(title, id, name, u)
  {
    TrimTwice(id);
  }

  lemma PlacesAre(place: Place, kind: Kind, id: Str, payload: Payload, u: Unicode)
    requires Places(kind, id, FieldsOf(payload), TextOf(u)).Some?
    ensures place in Places(kind, id, FieldsOf(payload), TextOf(u)).value <==> CallsFor(place, kind, id, payload, u)
  {
    var encoded, canonical, aliases := PlacesParts(kind, id, FieldsOf(payload), TextOf(u));
    CanonicalIs(place, kind, id, payload, u, canonical);
    match kind
    case Page => PageAliasesAre(place, encoded, id, payload, u, aliases);
    case Space => SpaceAliasesAre(place, encoded, id, payload, u, aliases);
  }

  /** A path is one of a record's exactly when the record's own fields call for it. */
  lemma TargetsAre(place: Place, kind: Kind, id: Str, payload: Payload, u: Unicode)
    requires LayoutOf(u).targets(kind, id, payload).Some? && PlainPlace(place)
    ensures Print(place) in LayoutOf(u).targets(kind, id, payload).value <==> CallsFor(place, kind, id, payload, u)
  {
    TextIsGood(u);
    PlacesListed(kind, id, FieldsOf(payload), TextOf(u));
    PlacesAre(place, kind, id, payload, u);
    PrintedAmong(Places(kind, id, FieldsOf(payload), TextOf(u)).value, place);
  }

  lemma PrintedAmong(places: seq<Place>, place: Place)
    requires PlainPlace(place) && forall i :: 0 <= i < |places| ==> PlainPlace(places[i])
    ensures Print(place) in PrintAll(places) <==> place in places
  {
    if i :| 0 <= i < |places| && PrintAll(places)[i] == Print(place) { PrintInjective(places[i], place); }
    if i :| 0 <= i < |places| && places[i] == place { assert PrintAll(places)[i] == Print(place); }
  }

  lemma AliasesDefined(kind: Kind, id: Str, rawId: Str, payload: Payload, u: Unicode)
    requires EncodeSegment(rawId) == Some(id)
    ensures AliasPlacesOf(kind, id, FieldsOf(payload), TextOf(u)).Some? <==> Printable(kind, rawId, payload, u)
  {}

  lemma CanonicalDefined(kind: Kind, id: Str, payload: Payload, u: Unicode)
    ensures CanonicalPlace(kind, id, FieldsOf(payload), TextOf(u)).Some?
      <==> EncodeSegment(id).Some? && (kind == Page ==> Encodable(payload.spaceId))
  {
    TrimTwice(id);
    FileReadsIff(OrElse(ReadString(payload.title), ReadString(payload.name)), id, u);
  }

  /** The paths of a record can be printed exactly when its id and the fields that name directories can. */
  lemma TargetsDefined(kind: Kind, id: Str, payload: Payload, u: Unicode)
    ensures LayoutOf(u).targets(kind, id, payload).Some? <==> Printable(kind, id, payload, u)
  {
    CanonicalDefined(kind, id, payload, u);
    if EncodeSegment(id).Some? { AliasesDefined(kind, EncodeSegment(id).value, id, payload, u); }
  }

  // ---------------------------------------------------------------------------
  // One event
  // ---------------------------------------------------------------------------

  predicate ReadsAt(text: Str, i: nat, part: Str) { i + |part| <= |text| && text[i..i + |part|] == part }

  /** The event deletes: its type, lowercased, has the word "deleted" in it, or its payload says so. */
  ghost predicate Deleting(event: Event, lower: Str -> Str) {
    event.payload.deleted || exists i: nat :: ReadsAt(lower(event.eventType), i, U("deleted"))
  }

  lemma {:induction false} ContainsIff(text: Str, part: Str)
    ensures Contains(text, part) <==> exists i: nat :: ReadsAt(text, i, part)
  {
    if part <= text {
      assert ReadsAt(text, 0, part);
    } else if text != [] {
      ContainsIff(text[1..], part);
      if i: nat :| ReadsAt(text[1..], i, part) {
        assert text[1..][i..i + |part|] == text[i + 1..i + 1 + |part|];
        assert ReadsAt(text, i + 1, part);
      }
      if i: nat :| ReadsAt(text, i, part) {
        assert i > 0 && text[1..][i - 1..i - 1 + |part|] == text[i..i + |part|];
        assert ReadsAt(text[1..], i - 1, part);
      }
    }
  }

  lemma IsDeleteIff(event: Event, lower: Str -> Str)
    ensures IsDelete(event, lower) <==> Deleting(event, lower)
  {
    ContainsIff(lower(event.eventType), U("deleted"));
  }

  /**
   * Without failures a deleting event leaves none of the paths that its fields call for and touches no
   * other; any other event leaves its rendering at all of them.
   */
  lemma EventDoes(files: Files, event: Event, client: Client, u: Unicode)
    requires Fair(client) && Printable(event.kind, event.objectId, event.payload, u)
    requires Ingest(files, event, client, LayoutOf(u), u.lower).Done?
    ensures
      var after := Ingest(files, event, client, LayoutOf(u), u.lower).files;
      forall place :: PlainPlace(place) ==>
        if CallsFor(place, event.kind, event.objectId, event.payload, u) then
          if Deleting(event, u.lower) then Print(place) !in after
          else Print(place) in after
               && after[Print(place)] == Wrapper(event.kind, event.objectId, event.payload)
        else Deleting(event, u.lower) ==> SameAt(files, after, Print(place))
  {
    TargetsDefined(event.kind, event.objectId, event.payload, u);
    IsDeleteIff(event, u.lower);
    var after := Ingest(files, event, client, LayoutOf(u), u.lower).files;
    forall place | PlainPlace(place)
      ensures
        if CallsFor(place, event.kind, event.objectId, event.payload, u) then
          if Deleting(event, u.lower) then Print(place) !in after
          else Print(place) in after
               && after[Print(place)] == Wrapper(event.kind, event.objectId, event.payload)
        else Deleting(event, u.lower) ==> SameAt(files, after, Print(place))
    {
      TargetsAre(place, event.kind, event.objectId, event.payload, u);
      EachPathByItsOwnCall(files, event, client, LayoutOf(u), u.lower, Print(place));
    }
  }

  predicate SameAt(files: Files, after: Files, p: Str) {
    (p in after <==> p in files) && (p in after ==> after[p] == files[p])
  }

  // ---------------------------------------------------------------------------
  // Whole runs
  // ---------------------------------------------------------------------------

  predicate About(event: Event, k: Key, u: Unicode) {
    event.kind == k.0 && Trim(event.objectId) == k.1 && Printable(event.kind, event.objectId, event.payload, u)
  }

  /** The last event about its record. */
  predicate IsLatest(events: seq<Event>, i: nat, u: Unicode) {
    && i < |events| && About(events[i], KeyOf(events[i]), u)
    && forall j :: i < j < |events| ==> !About(events[j], KeyOf(events[i]), u)
  }

  /** A record is live exactly when the last event about it is no deletion, with that event's rendering. */
  lemma {:induction false} LiveIsLatest(events: seq<Event>, k: Key, u: Unicode)
    ensures
      var live := LiveRun(map[], events, LayoutOf(u), u.lower);
      var i := LastWhere(events, event => About(event, k, u));
      && (k in live <==> i >= 0 && !Deleting(events[i], u.lower))
      && (k in live ==> live[k] == Wrapper(events[i].kind, events[i].objectId, events[i].payload))
  {
    if events == [] {
    } else {
      var front, last := events[..|events| - 1], events[|events| - 1];
      LiveIsLatest(front, k, u);
      TargetsDefined(last.kind, last.objectId, last.payload, u);
      IsDeleteIff(last, u.lower);
    }
  }

  /** The last event about a record is no deletion and its fields call for the place. */
  ghost predicate LeadsTo(place: Place, events: seq<Event>, i: nat, u: Unicode) {
    && IsLatest(events, i, u) && !Deleting(events[i], u.lower)
    && CallsFor(place, events[i].kind, events[i].objectId, events[i].payload, u)
  }

  lemma LatestIsLive(events: seq<Event>, i: nat, u: Unicode)
    requires IsLatest(events, i, u)
    ensures
      var live, k := LiveRun(map[], events, LayoutOf(u), u.lower), KeyOf(events[i]);
      && (k in live <==> !Deleting(events[i], u.lower))
      && (k in live ==> live[k] == Wrapper(events[i].kind, events[i].objectId, events[i].payload))
  {
    var k := KeyOf(events[i]);
    LiveIsLatest(events, k, u);
    assert LastWhere(events, event => About(event, k, u)) == i;
  }

  lemma LiveHasLatest(events: seq<Event>, k: Key, u: Unicode) returns (i: nat)
    requires k in LiveRun(map[], events, LayoutOf(u), u.lower)
    ensures IsLatest(events, i, u) && KeyOf(events[i]) == k && !Deleting(events[i], u.lower)
  {
    LiveIsLatest(events, k, u);
    i := LastWhere(events, event => About(event, k, u));
  }

  lemma LatestIsThere(files: Files, events: seq<Event>, i: nat, u: Unicode, place: Place)
    requires PlainPlace(place) && LeadsTo(place, events, i, u)
    requires World(files, LiveRun(map[], events, LayoutOf(u), u.lower), LayoutOf(u))
    ensures Holds(files, place, events[i])
  {
    LatestIsLive(events, i, u);
    LatestHas(events[i], place, u);
    LiveHolds(files, LiveRun(map[], events, LayoutOf(u), u.lower), LayoutOf(u), events[i], place);
  }

  lemma LatestHas(event: Event, place: Place, u: Unicode)
    requires PlainPlace(place) && About(event, KeyOf(event), u)
    requires CallsFor(place, event.kind, event.objectId, event.payload, u)
    ensures Has(Wrapper(event.kind, event.objectId, event.payload), Print(place), SchemeOf(LayoutOf(u)))
  {
    HasIff(Wrapper(event.kind, event.objectId, event.payload), place, u);
  }

  lemma LiveHolds(files: Files, live: Live, layout: Layout, event: Event, place: Place)
    requires World(files, live, layout) && KeyOf(event) in live
    requires live[KeyOf(event)] == Wrapper(event.kind, event.objectId, event.payload)
    requires Has(live[KeyOf(event)], Print(place), SchemeOf(layout))
    ensures Holds(files, place, event)
  {}

  lemma ThereIsLatest(files: Files, events: seq<Event>, u: Unicode, place: Place) returns (i: nat)
    requires PlainPlace(place) && Print(place) in files
    requires World(files, LiveRun(map[], events, LayoutOf(u), u.lower), LayoutOf(u))
    ensures LeadsTo(place, events, i, u)
  {
    var live := LiveRun(map[], events, LayoutOf(u), u.lower);
    assert Owned(live, Print(place), SchemeOf(LayoutOf(u)));
    var k: Key :| k in live && Has(live[k], Print(place), SchemeOf(LayoutOf(u)));
    i := LiveHasLatest(events, k, u);
    LatestIsLive(events, i, u);
    HasIff(live[k], place, u);
  }

  predicate Holds(files: Files, place: Place, event: Event) {
    Print(place) in files && files[Print(place)] == Wrapper(event.kind, event.objectId, event.payload)
  }

  /**
   * After every run without failures in which live records never share a path, a path is there exactly
   * when the last event about some record is no deletion and its fields call for the path; it then
   * holds that event's rendering.
   */
  lemma RunsLeadToLatest(events: seq<Event>, client: Client, u: Unicode, place: Place)
    requires Fair(client) && GoodRun(events, LayoutOf(u), u.lower) && PlainPlace(place)
    ensures
      var files := Run(map[], events, client, LayoutOf(u), u.lower);
      && (Print(place) in files <==> exists i: nat :: LeadsTo(place, events, i, u))
      && (forall i: nat :: LeadsTo(place, events, i, u) ==> Holds(files, place, events[i]))
  {
    var files := Run(map[], events, client, LayoutOf(u), u.lower);
    RunsMirrorLatestPayloads(events, client, u);
    forall i: nat | LeadsTo(place, events, i, u) ensures Holds(files, place, events[i]) {
      LatestIsThere(files, events, i, u, place);
    }
    if Print(place) in files {
      var i := ThereIsLatest(files, events, u, place);
    }
  }

  lemma HasIff(content: Content, place: Place, u: Unicode)
    requires PlainPlace(place) && content.Wrapper?
    ensures Has(content, Print(place), SchemeOf(LayoutOf(u))) <==>
      && Printable(content.kind, content.objectId, content.payload, u)
      && CallsFor(place, content.kind, content.objectId, content.payload, u)
  {
    TargetsDefined(content.kind, content.objectId, content.payload, u);
    if LayoutOf(u).targets(content.kind, content.objectId, content.payload).Some? {
      TargetsAre(place, content.kind, content.objectId, content.payload, u);
    }
  }
}
