/**
 * What the payload of a Confluence delete event must repeat for the event to remove its record: the
 * event deletes the paths of its own payload, not the stored ones
 * (packages/confluence/src/confluence-adapter.ts:140-146, 306-345).
 */
module ConfluenceDeletes {
  import opened Wrappers
  import opened JsStrings
  import opened StatusSlugs
  import opened AliasStore
  import opened ConfluencePaths
  import opened ConfluenceAdapter
  import opened ConfluenceRuns
  import opened ConfluenceCollisions

  /** A record's places by rank; `third` is the by-state or the by-key alias. */
  datatype Slots = Slots(canonical: Place, anchor: Place, title: Option<Place>, third: Option<Place>,
                         space: Option<Place>, parent: Option<Place>)

  predicate At(place: Option<Place>, rank: nat) { place.Some? ==> Rank(place.value) == rank }

  predicate Ranked(s: Slots) {
    && Rank(s.canonical) == 0 && Rank(s.anchor) == 1 && At(s.title, 2) && At(s.third, 3) && At(s.space, 5)
      && At(s.parent, 6)
  }

  predicate Holds(s: Slots, p: Place) {
    p == s.canonical || p == s.anchor || Some(p) in [s.title, s.third, s.space, s.parent]
  }

  predicate Within(a: Option<Place>, b: Option<Place>) { a.Some? ==> a == b }

  /** Each place of one record is the other's place of the same rank. */
  lemma HoldsAll(a: Slots, b: Slots)
    requires Ranked(a) && Ranked(b)
    ensures (forall p :: Holds(a, p) ==> Holds(b, p))
      <==> a.canonical == b.canonical && a.anchor == b.anchor && Within(a.title, b.title) && Within(a.third, b.third)
           && Within(a.space, b.space) && Within(a.parent, b.parent)
  {
    if forall p :: Holds(a, p) ==> Holds(b, p) {
      assert Holds(a, a.canonical) && Holds(a, a.anchor);
      assert a.title.Some? ==> Holds(a, a.title.value);
      assert a.third.Some? ==> Holds(a, a.third.value);
      assert a.space.Some? ==> Holds(a, a.space.value);
      assert a.parent.Some? ==> Holds(a, a.parent.value);
    }
  }

  // ---------------------------------------------------------------------------
  // The slots of a record
  // ---------------------------------------------------------------------------

  function NameSlug(fields: Fields, t: Text): Str {
    match OrElse(fields.title, fields.name) case Some(title) => t.name(title) case None => []
  }

  /** The title of the by-title alias. */
  function TitleOf(kind: Kind, fields: Fields): Option<Str> {
    if kind == Page then fields.title else OrElse(fields.name, fields.title)
  }

  function TitleSlug(kind: Kind, fields: Fields, t: Text): Option<Str> {
    var title := TitleOf(kind, fields);
    if title.Some? && t.slugifies(title.value) then Some(t.alias(title.value)) else None
  }

  function Mapped(text: Option<Str>, placeOf: Str -> Place): Option<Place> {
    if text.Some? then Some(placeOf(text.value)) else None
  }

  function SlotsOf(kind: Kind, id: Str, fields: Fields, t: Text): Slots {
    var name, title := Named(NameSlug(fields, t), id), TitleSlug(kind, fields, t);
    match kind
    case Page =>
      Slots(PageFile(Encoded(fields.spaceId, t.segment), name), PageById(id), Mapped(title, slug => PageByTitle(slug)),
            Mapped(Encoded(fields.status, t.status), status => PageByState(status, id)),
            Mapped(Encoded(fields.spaceId, t.segment), space => PageBySpace(space, id)),
            Mapped(Encoded(fields.parentId, t.segment), parent => PageByParent(parent, id)))
    case Space =>
      Slots(SpaceFile(name), SpaceById(id), Mapped(title, slug => SpaceByTitle(slug)),
            Mapped(Encoded(fields.key, t.segment), key => SpaceByKey(key)), None, None)
  }

  function Listing(place: Option<Place>): seq<Place> { if place.Some? then [place.value] else [] }

  lemma CanonicalSlot(kind: Kind, id: Str, fields: Fields, t: Text, canonical: Place, encoded: Str)
    requires GoodText(t) && CanonicalPlace(kind, id, fields, t) == Some(canonical) && t.segment(id) == Some(encoded)
    ensures canonical == SlotsOf(kind, encoded, fields, t).canonical
  {
    assert t.segment(Trim(id)) == t.segment(id);
  }

  lemma TitleSlot(kind: Kind, id: Str, fields: Fields, t: Text)
    ensures TitleAlias(TitleOf(kind, fields), kind, t) == Listing(SlotsOf(kind, id, fields, t).title)
  {}

  function AliasesIn(s: Slots): seq<Place> {
    [s.anchor] + Listing(s.title) + Listing(s.third) + Listing(s.space) + Listing(s.parent)
  }

  lemma AliasSlots(kind: Kind, id: Str, fields: Fields, t: Text)
    requires AliasPlacesOf(kind, id, fields, t).Some?
    ensures AliasPlacesOf(kind, id, fields, t).value == AliasesIn(SlotsOf(kind, id, fields, t))
  {
    TitleSlot(kind, id, fields, t);
  }

  lemma SlotMembers(s: Slots, p: Place)
    ensures p in [s.canonical] + AliasesIn(s) <==> Holds(s, p)
  {}

  lemma PlacesAreSlots(kind: Kind, id: Str, fields: Fields, t: Text) returns (encoded: Str)
    requires GoodText(t) && Places(kind, id, fields, t).Some?
    ensures t.segment(id) == Some(encoded) && AliasPlacesOf(kind, encoded, fields, t).Some?
    ensures Places(kind, id, fields, t).value
      == [SlotsOf(kind, encoded, fields, t).canonical] + AliasesIn(SlotsOf(kind, encoded, fields, t))
  {
    var e, canonical, aliases := PlacesParts(kind, id, fields, t);
    encoded := e;
    CanonicalSlot(kind, id, fields, t, canonical, encoded);
    AliasSlots(kind, encoded, fields, t);
  }

  // ---------------------------------------------------------------------------
  // The condition on the fields
  // ---------------------------------------------------------------------------

  predicate Repeats(stored: Option<Str>, given: Option<Str>) { stored.Some? ==> stored == given }

  /**
   * The delete's payload repeats what the stored one made paths of: the slug of its name, its by-title
   * slug, and for a page its status slug, its space (given or absent alike) and its parent; for a
   * space its key.
   */
  predicate Covers(kind: Kind, stored: Fields, given: Fields, t: Text) {
    && NameSlug(stored, t) == NameSlug(given, t)
    && Repeats(TitleSlug(kind, stored, t), TitleSlug(kind, given, t))
    && match kind
       case Page =>
         && stored.spaceId == given.spaceId && Repeats(stored.parentId, given.parentId)
         && Repeats(Encoded(stored.status, t.status), Encoded(given.status, t.status))
       case Space => Repeats(stored.key, given.key)
  }

  predicate Trimmed(field: Option<Str>) { field.Some? ==> Trim(field.value) == field.value }

  predicate Tidy(f: Fields) { Trimmed(f.spaceId) && Trimmed(f.parentId) && Trimmed(f.key) }

  predicate Encodes(field: Option<Str>, encode: Str -> Option<Str>) { field.Some? ==> encode(field.value).Some? }

  lemma NamedSlugs(a: Str, b: Str, id: Str)
    ensures Named(a, id) == Named(b, id) <==> a == b
  {
    if Named(a, id) == Named(b, id) {
      assert |a| == |b|;
      assert a == Named(a, id)[..|a|] || a == [];
      assert b == Named(b, id)[..|b|] || b == [];
    }
  }

  lemma SameText(stored: Option<Str>, given: Option<Str>, t: Text)
    requires GoodText(t) && Trimmed(stored) && Trimmed(given) && Encodes(stored, t.segment) && Encodes(given, t.segment)
    ensures Encoded(stored, t.segment) == Encoded(given, t.segment) <==> stored == given
  {}

  /** A record has aliases only when all its fields encode. */
  lemma FieldsEncode(kind: Kind, id: Str, fields: Fields, t: Text)
    requires AliasPlacesOf(kind, id, fields, t).Some?
    ensures kind == Page ==>
      Encodes(fields.spaceId, t.segment) && Encodes(fields.parentId, t.segment) && Encodes(fields.status, t.status)
    ensures kind == Space ==> Encodes(fields.key, t.segment)
  {}

  lemma PageSlotsCover(id: Str, stored: Fields, given: Fields, t: Text)
    ensures
      var a, b := SlotsOf(Page, id, stored, t), SlotsOf(Page, id, given, t);
      && a.anchor == b.anchor
      && (a.canonical == b.canonical <==>
           NameSlug(stored, t) == NameSlug(given, t)
             && Encoded(stored.spaceId, t.segment) == Encoded(given.spaceId, t.segment))
      && (Within(a.title, b.title) <==> Repeats(TitleSlug(Page, stored, t), TitleSlug(Page, given, t)))
      && (Within(a.third, b.third) <==> Repeats(Encoded(stored.status, t.status), Encoded(given.status, t.status)))
      && (Within(a.space, b.space) <==> Repeats(Encoded(stored.spaceId, t.segment), Encoded(given.spaceId, t.segment)))
      && (Within(a.parent, b.parent)
          <==> Repeats(Encoded(stored.parentId, t.segment), Encoded(given.parentId, t.segment)))
  {
    NamedSlugs(NameSlug(stored, t), NameSlug(given, t), id);
  }

  lemma SpaceSlotsCover(id: Str, stored: Fields, given: Fields, t: Text)
    ensures
      var a, b := SlotsOf(Space, id, stored, t), SlotsOf(Space, id, given, t);
      && a.anchor == b.anchor && (a.canonical == b.canonical <==> NameSlug(stored, t) == NameSlug(given, t))
      && (Within(a.title, b.title) <==> Repeats(TitleSlug(Space, stored, t), TitleSlug(Space, given, t)))
      && (Within(a.third, b.third) <==> Repeats(Encoded(stored.key, t.segment), Encoded(given.key, t.segment)))
      && Within(a.space, b.space) && Within(a.parent, b.parent)
  {
    NamedSlugs(NameSlug(stored, t), NameSlug(given, t), id);
  }

  lemma SlotsRanked(kind: Kind, id: Str, fields: Fields, t: Text)
    ensures Ranked(SlotsOf(kind, id, fields, t))
  {}

  lemma SlotsCover(kind: Kind, id: Str, stored: Fields, given: Fields, t: Text)
    requires GoodText(t) && Tidy(stored) && Tidy(given)
    requires AliasPlacesOf(kind, id, stored, t).Some? && AliasPlacesOf(kind, id, given, t).Some?
    ensures (forall p :: Holds(SlotsOf(kind, id, stored, t), p) ==> Holds(SlotsOf(kind, id, given, t), p))
      <==> Covers(kind, stored, given, t)
  {
    SlotsRanked(kind, id, stored, t);
    SlotsRanked(kind, id, given, t);
    HoldsAll(SlotsOf(kind, id, stored, t), SlotsOf(kind, id, given, t));
    FieldsEncode(kind, id, stored, t);
    FieldsEncode(kind, id, given, t);
    match kind
    case Page =>
      PageSlotsCover(id, stored, given, t);
      SameText(stored.spaceId, given.spaceId, t);
      SameText(stored.parentId, given.parentId, t);
    case Space =>
      SpaceSlotsCover(id, stored, given, t);
      SameText(stored.key, given.key, t);
  }

  lemma PlacesCover(kind: Kind, a: Str, stored: Fields, b: Str, given: Fields, t: Text)
    requires GoodText(t) && Tidy(stored) && Tidy(given) && Trim(a) == Trim(b)
    requires Places(kind, a, stored, t).Some? && Places(kind, b, given, t).Some?
    ensures (forall p :: p in Places(kind, a, stored, t).value ==> p in Places(kind, b, given, t).value)
      <==> Covers(kind, stored, given, t)
  {
    var i := PlacesAreSlots(kind, a, stored, t);
    var j := PlacesAreSlots(kind, b, given, t);
    assert t.segment(Trim(a)) == t.segment(a) && t.segment(Trim(b)) == t.segment(b);
    forall p ensures p in Places(kind, a, stored, t).value <==> Holds(SlotsOf(kind, i, stored, t), p) {
      SlotMembers(SlotsOf(kind, i, stored, t), p);
    }
    forall p ensures p in Places(kind, b, given, t).value <==> Holds(SlotsOf(kind, i, given, t), p) {
      SlotMembers(SlotsOf(kind, i, given, t), p);
    }
    SlotsCover(kind, i, stored, given, t);
  }

  lemma FieldsTidy(payload: Payload)
    ensures Tidy(FieldsOf(payload))
  {
    TrimTidy(payload.spaceId);
    TrimTidy(payload.parentId);
    TrimTidy(payload.key);
  }

  lemma TrimTidy(field: Option<Str>)
    ensures Trimmed(ReadString(field))
  {
    if field.Some? { TrimTwice(field.value); }
  }

  lemma PathsOfPlaces(event: Event, u: Unicode, place: Place)
    requires PlacesOf(event, u).Some? && PlainPlace(place)
    ensures Targets(event, Print(place), LayoutOf(u)) <==> place in PlacesOf(event, u).value
  {
    if place in PlacesOf(event, u).value {
      PlaceIsTarget(event, u, place);
    } else if Targets(event, Print(place), LayoutOf(u)) {
      var other := PathOf(event, u, Print(place));
      PrintInjective(place, other);
    }
  }

  lemma SamePathsSamePlaces(page: Event, event: Event, u: Unicode)
    requires PlacesOf(page, u).Some? && PlacesOf(event, u).Some?
    ensures (forall p :: Targets(page, p, LayoutOf(u)) ==> Targets(event, p, LayoutOf(u)))
      <==> forall place :: place in PlacesOf(page, u).value ==> place in PlacesOf(event, u).value
  {
    TextIsGood(u);
    PlacesListed(page.kind, page.objectId, FieldsOf(page.payload), TextOf(u));
    if forall p :: Targets(page, p, LayoutOf(u)) ==> Targets(event, p, LayoutOf(u)) {
      forall place | place in PlacesOf(page, u).value ensures place in PlacesOf(event, u).value {
        PathsOfPlaces(page, u, place);
        PathsOfPlaces(event, u, place);
        assert Targets(page, Print(place), LayoutOf(u));
      }
    }
    if forall place :: place in PlacesOf(page, u).value ==> place in PlacesOf(event, u).value {
      forall p | Targets(page, p, LayoutOf(u)) ensures Targets(event, p, LayoutOf(u)) {
        var place := PathOf(page, u, p);
        PlaceIsTarget(event, u, place);
      }
    }
  }

  /** A delete event names every path of its stored record exactly when its fields cover the stored ones. */
  lemma NamesEveryPathIff(live: Live, page: Event, event: Event, u: Unicode)
    requires KeyOf(page) == KeyOf(event) && KeyOf(event) in live && live[KeyOf(event)] == Rendering(page)
    requires PlacesOf(page, u).Some? && PlacesOf(event, u).Some?
    ensures NamesEveryPath(live, event, LayoutOf(u))
      <==> Covers(event.kind, FieldsOf(page.payload), FieldsOf(event.payload), TextOf(u))
  {
    TextIsGood(u);
    FieldsTidy(page.payload);
    FieldsTidy(event.payload);
    SamePathsSamePlaces(page, event, u);
    PlacesCover(event.kind, page.objectId, FieldsOf(page.payload), event.objectId, FieldsOf(event.payload), TextOf(u));
    assert forall p :: Had(live, event, p, LayoutOf(u)) <==> Targets(page, p, LayoutOf(u));
  }

  /**
   * A delete event without failures removes its record, and nothing else, exactly when its fields cover
   * the stored ones.
   */
  lemma DeleteRemovesIff(files: Files, live: Live, page: Event, event: Event, client: Client, u: Unicode,
                         lower: Str -> Str)
    requires World(files, live, LayoutOf(u)) && Fair(client) && IsDelete(event, lower)
    requires KeyOf(page) == KeyOf(event) && KeyOf(event) in live && live[KeyOf(event)] == Rendering(page)
    requires PlacesOf(page, u).Some? && PlacesOf(event, u).Some? && Apart(live, event, LayoutOf(u))
    ensures World(Ingest(files, event, client, LayoutOf(u), lower).files, live - {KeyOf(event)}, LayoutOf(u))
      <==> Covers(event.kind, FieldsOf(page.payload), FieldsOf(event.payload), TextOf(u))
  {
    DeleteRemovesRecord(files, live, event, client, LayoutOf(u), lower);
    NamesEveryPathIff(live, page, event, u);
  }

  /** In particular never when a page is in a space and its delete does not say which. */
  lemma BareDeleteLeavesBySpaceAlias(live: Live, page: Event, event: Event, u: Unicode)
    requires KeyOf(page) == KeyOf(event) && KeyOf(event) in live && live[KeyOf(event)] == Rendering(page)
    requires event.kind == Page && PlacesOf(page, u).Some?
    requires FieldsOf(page.payload).spaceId.Some? && FieldsOf(event.payload).spaceId.None?
    ensures !NamesEveryPath(live, event, LayoutOf(u))
  {
    if PlacesOf(event, u).Some? {
      NamesEveryPathIff(live, page, event, u);
    } else {
      PlaceIsTarget(page, u, PlacesOf(page, u).value[0]);
      assert Had(live, event, Print(PlacesOf(page, u).value[0]), LayoutOf(u));
    }
  }
}
