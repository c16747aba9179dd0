/**
 * When the paths of two Confluence records can meet: for ids without underscores only by title
 * or by space key.
 */
module ConfluenceCollisions {
  import opened Wrappers
  import opened JsStrings
  import opened UriCodec
  import opened StatusSlugs
  import opened ConfluencePaths
  import opened ConfluenceAdapter
  import opened ConfluenceRuns
  import opened AliasStore

  lemma {:induction false} EscapesWithoutUnderscore(bytes: seq<Byte>)
    ensures UNDERSCORE !in EscapeAll(bytes)
  {
    if bytes == [] {
    } else {
      EscapesWithoutUnderscore(bytes[1..]);
    }
  }

  /** Encoding adds no underscore. */
  lemma {:induction false} EncodeWithoutUnderscore(s: Str)
    requires UNDERSCORE !in s && Encode(s).Some?
    ensures UNDERSCORE !in Encode(s).value
    decreases |s|
  {
    if s == [] {
    } else {
      EncodeWithoutUnderscore(s[EncodeFirst(s).value.1..]);
      if !Unreserved(s[0]) {
        EscapesWithoutUnderscore(Utf8(if IsLead(s[0]) then PairScalar(s[0], s[1]) else s[0]));
      }
    }
  }

  /** A file name of the canonical form: an id, after a slug and two underscores when there is a slug. */
  function Named(slug: Str, id: Str): Str { if slug == [] then id else slug + U("__") + id }

  lemma SplitAtUnderscore(a: Str, x: Str, b: Str, y: Str)
    requires UNDERSCORE !in a && UNDERSCORE !in b && a + U("__") + x == b + U("__") + y
    ensures a == b && x == y
  {
    var s := a + U("__") + x;
    assert s[|a|] == UNDERSCORE && s[|b|] == UNDERSCORE;
    assert forall i :: 0 <= i < |a| ==> s[i] == a[i] && a[i] != UNDERSCORE;
    assert forall i :: 0 <= i < |b| ==> s[i] == b[i] && b[i] != UNDERSCORE;
    assert |a| == |b|;
    assert a == s[..|a|] && b == s[..|b|] && x == s[|a| + 2..] && y == s[|b| + 2..];
  }

  lemma HasUnderscore(a: Str, x: Str)
    ensures UNDERSCORE in a + U("__") + x
  {
    assert (a + U("__") + x)[|a|] == UNDERSCORE;
  }

  lemma NamedInjective(a: Str, x: Str, b: Str, y: Str)
    requires UNDERSCORE !in a && UNDERSCORE !in b && UNDERSCORE !in x && UNDERSCORE !in y
    requires Named(a, x) == Named(b, y)
    ensures x == y
  {
    HasUnderscore(a, x);
    HasUnderscore(b, y);
    if a != [] && b != [] { SplitAtUnderscore(a, x, b, y); }
  }

  /** The ids that encode without underscores. */
  ghost predicate PlainId(id: Str, t: Text) {
    t.segment(id).Some? ==> UNDERSCORE !in t.segment(id).value
  }

  lemma PlainIds(id: Str, u: Unicode)
    requires UNDERSCORE !in Trim(id)
    ensures PlainId(id, TextOf(u))
  {
    if EncodeSegment(id).Some? { EncodeWithoutUnderscore(Trim(id)); }
  }

  lemma CanonicalName(kind: Kind, id: Str, fields: Fields, t: Text) returns (slug: Str)
    requires GoodText(t) && CanonicalPlace(kind, id, fields, t).Some?
    ensures t.segment(id).Some? && UNDERSCORE !in slug
    ensures FileName(CanonicalPlace(kind, id, fields, t).value) == Named(slug, t.segment(id).value)
  {
    assert t.segment(Trim(id)) == t.segment(id);
    var name := OrElse(fields.title, fields.name);
    slug := if name.Some? then t.name(name.value) else [];
    assert UNDERSCORE !in slug;
  }

  /** The place is a by-title or by-key alias: it does not say whose it is. */
  predicate Anonymous(place: Place) { place.PageByTitle? || place.SpaceByTitle? || place.SpaceByKey? }

  lemma NamedPlaces(a: Place, b: Place, k: Kind, l: Kind, i: Str, j: Str)
    requires Names(a, k, i) && Names(b, l, j) && a == b
    ensures k == l && (Anonymous(a) || a.PageFile? || a.SpaceFile? || i == j)
  {}

  /** The canonical place is the only one that is a PageFile or a SpaceFile. */
  lemma CanonicalAmong(kind: Kind, id: Str, fields: Fields, t: Text, place: Place)
    requires GoodText(t) && Places(kind, id, fields, t).Some? && place in Places(kind, id, fields, t).value
    requires place.PageFile? || place.SpaceFile?
    ensures CanonicalPlace(kind, id, fields, t) == Some(place)
  {
    var encoded, canonical, aliases := PartsListed(kind, id, fields, t);
    assert place in [canonical] + aliases;
  }

  /** Two records with different keys and ids without underscores meet only at anonymous places. */
  lemma SharedPlace(k: Kind, a: Str, x: Fields, l: Kind, b: Str, y: Fields, t: Text, place: Place)
    requires GoodText(t) && Places(k, a, x, t).Some? && Places(l, b, y, t).Some?
    requires place in Places(k, a, x, t).value && place in Places(l, b, y, t).value
    requires PlainId(a, t) && PlainId(b, t) && (k, Trim(a)) != (l, Trim(b))
    ensures k == l && Anonymous(place)
  {
    PlacesListed(k, a, x, t);
    PlacesListed(l, b, y, t);
    var i, j := t.segment(a).value, t.segment(b).value;
    NamedPlaces(place, place, k, l, i, j);
    if place.PageFile? || place.SpaceFile? {
      CanonicalAmong(k, a, x, t, place);
      CanonicalAmong(l, b, y, t, place);
      var p := CanonicalName(k, a, x, t);
      var q := CanonicalName(l, b, y, t);
      NamedInjective(p, i, q, j);
    }
  }

  /** What an event's record is stored as. */
  function PlacesOf(event: Event, u: Unicode): Option<seq<Place>> {
    Places(event.kind, event.objectId, FieldsOf(event.payload), TextOf(u))
  }

  ghost predicate HasAnonymous(event: Event, u: Unicode, place: Place) {
    Anonymous(place) && PlacesOf(event, u).Some? && place in PlacesOf(event, u).value
  }

  lemma PathOf(event: Event, u: Unicode, p: Str) returns (place: Place)
    requires Targets(event, p, LayoutOf(u))
    ensures PlacesOf(event, u).Some? && place in PlacesOf(event, u).value && p == Print(place) && PlainPlace(place)
  {
    var places := PlacesOf(event, u).value;
    var i :| 0 <= i < |places| && PrintAll(places)[i] == p;
    place := places[i];
    TextIsGood(u);
    PlacesListed(event.kind, event.objectId, FieldsOf(event.payload), TextOf(u));
  }

  /**
   * Two records whose ids hold no underscore meet only where a by-title or by-key alias of one is
   * an alias of the other.
   */
  lemma MeetAnonymously(a: Event, b: Event, u: Unicode, p: Str) returns (place: Place)
    requires KeyOf(a) != KeyOf(b) && UNDERSCORE !in Trim(a.objectId) && UNDERSCORE !in Trim(b.objectId)
    requires Targets(a, p, LayoutOf(u)) && Targets(b, p, LayoutOf(u))
    ensures HasAnonymous(a, u, place) && HasAnonymous(b, u, place) && p == Print(place)
  {
    place := PathOf(a, u, p);
    var other := PathOf(b, u, p);
    PrintInjective(place, other);
    TextIsGood(u);
    PlainIds(a.objectId, u);
    PlainIds(b.objectId, u);
    SharedPlace(a.kind, a.objectId, FieldsOf(a.payload), b.kind, b.objectId, FieldsOf(b.payload), TextOf(u), place);
  }

  /** Live records keep their paths apart as soon as no two of them share a by-title or by-key alias. */
  lemma ApartUnlessTitlesMeet(live: map<Key, Event>, u: Unicode)
    requires forall k :: k in live ==> KeyOf(live[k]) == k && UNDERSCORE !in Trim(live[k].objectId)
    requires forall j: Key, k: Key, place: Place ::
      j in live && k in live && j != k && HasAnonymous(live[j], u, place) ==>
      !HasAnonymous(live[k], u, place)
    ensures Disjoint(map k | k in live :: Rendering(live[k]), SchemeOf(LayoutOf(u)))
  {
    var stored := map k | k in live :: Rendering(live[k]);
    forall j: Key, k: Key, p: Str | j in stored && k in stored && j != k && Has(stored[j], p, SchemeOf(LayoutOf(u)))
      ensures !Has(stored[k], p, SchemeOf(LayoutOf(u)))
    {
      if Has(stored[k], p, SchemeOf(LayoutOf(u))) { var place := MeetAnonymously(live[j], live[k], u, p); }
    }
  }

  lemma PlaceIsTarget(event: Event, u: Unicode, place: Place)
    requires PlacesOf(event, u).Some? && place in PlacesOf(event, u).value
    ensures Targets(event, Print(place), LayoutOf(u))
  {
    var places := PlacesOf(event, u).value;
    var i :| 0 <= i < |places| && places[i] == place;
    assert PrintAll(places)[i] == Print(place);
  }
}
