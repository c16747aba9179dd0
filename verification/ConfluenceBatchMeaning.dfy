/**
 * What the Confluence batch emitter promises in terms of a page's own fields: which path each field calls
 * for, and which page a path or an index row leads to after a run
 * (packages/confluence/src/emit-auxiliary-files.ts:182-281, 380-436).
 */
module ConfluenceBatchMeaning {
  import opened Wrappers
  import opened JsStrings
  import opened UriCodec
  import opened StatusSlugs
  import opened AliasSlugs
  import opened AliasStore
  import opened ConfluencePaths
  import opened ConfluenceBatch
  import opened ConfluenceBatchRuns
  import opened Latest
  import ConfluenceMeaning

  // ---------------------------------------------------------------------------
  // Which field calls for which path
  // ---------------------------------------------------------------------------

  /** The title has a slug of its own, and this is it. */
  predicate TitleReads(title: Option<Str>, slug: Str, u: Unicode) {
    ReadString(title).Some? && slug == ConfluenceAlias(ReadString(title).value, u) && slug != U("untitled")
  }

  /** The first ten characters of the version's date, or else of the page's, when they are a date. */
  predicate EditedOn(page: PageData, date: Str) {
    var version, own := ReadString(page.versionCreatedAt), ReadString(page.createdAt);
    RollupPaths.DatePattern(date)
    && if version.Some? then date <= version.value else own.Some? && date <= own.value
  }

  /** The page's own camelCase fields call for this place. */
  predicate CallsFor(place: Place, page: PageData, u: Unicode) {
    match place
    case PageFile(space, name) =>
      && ConfluenceMeaning.FileReads(ReadString(page.title), page.id, name, u)
      && if space.Some? then EncodesTo(page.spaceId, space.value) else ReadString(page.spaceId).None?
    case PageById(i) => EncodeSegment(page.id) == Some(i)
    case PageByTitle(slug) => TitleReads(page.title, slug, u)
    case PageByState(status, i) =>
      EncodeSegment(page.id) == Some(i) && ConfluenceMeaning.StatusReads(page.status, status, u)
    case PageByEdited(date, i) => EncodeSegment(page.id) == Some(i) && EditedOn(page, date)
    case PageBySpace(space, i) => EncodeSegment(page.id) == Some(i) && EncodesTo(page.spaceId, space)
    case PageByParent(parent, i) => EncodeSegment(page.id) == Some(i) && EncodesTo(page.parentId, parent)
    case _ => false
  }

  /** Every path that the fields call for can be printed. */
  predicate Printable(page: PageData, u: Unicode) {
    && EncodeSegment(page.id).Some? && Encodable(page.spaceId) && Encodable(page.parentId)
    && (ReadString(page.status).Some? ==> StatusSlug(ReadString(page.status).value, u).Some?)
  }

  lemma DateEncodes(date: Str)
    requires RollupPaths.DatePattern(date)
    ensures EncodeSegment(date) == Some(date)
  {
    RollupPaths.DatePatternUnits(date);
    assert date[0] in date && date[9] in date;
    TrimOfTight(date);
    EncodeUnreserved(date);
  }

  lemma EditedIff(page: PageData, date: Str)
    ensures EditedDate(page) == Some(date) <==> EditedOn(page, date)
  {
    var at := OrElse(ReadString(page.versionCreatedAt), ReadString(page.createdAt));
    assert at.Some? && |date| == 10 ==> (date <= at.value <==> |at.value| >= 10 && at.value[..10] == date);
  }

  lemma InTitleAlias(place: Place, title: Option<Str>, u: Unicode)
    ensures place in TitleAlias(ReadString(title), Page, BatchText(u))
      <==> place.PageByTitle? && TitleReads(title, place.slug, u)
  {
    if ReadString(title).Some? { SlugEncodes(ReadString(title).value, u); }
  }

  lemma EditedAlias(place: Place, id: Str, page: PageData, u: Unicode)
    requires AliasFor(EditedDate(page), PageByEditedOf(id, BatchText(u))).Some?
    ensures place in AliasFor(EditedDate(page), PageByEditedOf(id, BatchText(u))).value
      <==> place.PageByEdited? && place.id == id && EditedOn(page, place.date)
  {
    ConfluenceMeaning.InAliasFor(EditedDate(page), PageByEditedOf(id, BatchText(u)), place);
    if EditedDate(page).Some? { DateEncodes(EditedDate(page).value); }
    if place.PageByEdited? { EditedIff(page, place.date); }
  }

  lemma AliasParts(place: Place, id: Str, state: PageState, t: Text)
    requires AliasPages(id, state, t).Some?
    ensures place in AliasPages(id, state, t).value <==>
      || place == PageById(id) || place in TitleAlias(state.title, Page, t)
      || place in AliasFor(state.status, PageByStateOf(id, t)).value
      || place in AliasFor(state.editedDate, PageByEditedOf(id, t)).value
      || place in AliasFor(state.spaceId, PageBySpaceOf(id, t)).value
      || place in AliasFor(state.parentId, PageByParentOf(id, t)).value
  {}

  lemma AliasesAre(place: Place, id: Str, page: PageData, u: Unicode)
    requires EncodeSegment(page.id) == Some(id) && AliasPages(id, NewState(page), BatchText(u)).Some?
    ensures place in AliasPages(id, NewState(page), BatchText(u)).value
      <==> !place.PageFile? && CallsFor(place, page, u)
  {
    var t, state := BatchText(u), NewState(page);
    AliasParts(place, id, state, t);
    InTitleAlias(place, page.title, u);
    ConfluenceMeaning.InAliasFor(state.status, PageByStateOf(id, t), place);
    EditedAlias(place, id, page, u);
    ConfluenceMeaning.InAliasFor(state.spaceId, PageBySpaceOf(id, t), place);
    ConfluenceMeaning.InAliasFor(state.parentId, PageByParentOf(id, t), place);
  }

  lemma CanonicalIs(place: Place, page: PageData, u: Unicode, canonical: Place)
    requires CanonicalPage(page.id, NewState(page), BatchText(u)) == Some(canonical)
    ensures place == canonical <==> place.PageFile? && CallsFor(place, page, u)
  {}

  lemma PlacesAre(place: Place, page: PageData, u: Unicode)
    requires PagePlaces(page.id, NewState(page), BatchText(u)).Some?
    ensures place in PagePlaces(page.id, NewState(page), BatchText(u)).value <==> CallsFor(place, page, u)
  {
    var encoded, canonical, aliases := PageParts(page.id, NewState(page), BatchText(u));
    CanonicalIs(place, page, u, canonical);
    AliasesAre(place, encoded, page, u);
    assert place in [canonical] + aliases <==> place == canonical || place in aliases;
  }

  /** A path is one of a page's exactly when the page's own fields call for it. */
  lemma PathsAre(place: Place, page: PageData, u: Unicode)
    requires PageLayoutOf(u).paths(page.id, NewState(page)).Some? && PlainPlace(place)
    ensures Print(place) in PageLayoutOf(u).paths(page.id, NewState(page)).value <==> CallsFor(place, page, u)
  {
    var places := PagePlaces(page.id, NewState(page), BatchText(u)).value;
    PlainPlaces(page, u);
    PlacesAre(place, page, u);
    ConfluenceMeaning.PrintedAmong(places, place);
  }

  lemma PlainPlaces(page: PageData, u: Unicode)
    requires PagePlaces(page.id, NewState(page), BatchText(u)).Some?
    ensures
      var places := PagePlaces(page.id, NewState(page), BatchText(u)).value;
      forall i :: 0 <= i < |places| ==> PlainPlace(places[i])
  {
    BatchTextIsGood(u);
    PagePlacesListed(page.id, NewState(page), BatchText(u));
  }

  lemma PlacesDefined(page: PageData, u: Unicode)
    ensures PagePlaces(page.id, NewState(page), BatchText(u)).Some? <==> Printable(page, u)
  {
    if EditedDate(page).Some? { DateEncodes(EditedDate(page).value); }
    if EncodeSegment(page.id).Some? { AliasesDefined(EncodeSegment(page.id).value, page, u); }
  }

  lemma AliasesDefined(id: Str, page: PageData, u: Unicode)
    requires EditedDate(page).Some? ==> EncodeSegment(EditedDate(page).value).Some?
    ensures AliasPages(id, NewState(page), BatchText(u)).Some? <==>
      && Encodable(page.spaceId) && Encodable(page.parentId)
      && (ReadString(page.status).Some? ==> StatusSlug(ReadString(page.status).value, u).Some?)
  {}

  // ---------------------------------------------------------------------------
  // Whole runs
  // ---------------------------------------------------------------------------

  /** The record changes the page of this id: it deletes it, or writes one whose paths can be printed. */
  predicate About(record: Record, id: Str, u: Unicode) {
    match record
    case Full(page) => Trim(page.id) == id && id != [] && Printable(page, u)
    case Tombstone(raw) => Trim(raw) == id
  }

  function IdOf(record: Record): Str {
    match record case Full(page) => Trim(page.id) case Tombstone(raw) => Trim(raw)
  }

  /** The last record about its page writes it. */
  predicate IsLatest(records: seq<Record>, i: nat, u: Unicode) {
    && i < |records| && records[i].Full? && About(records[i], IdOf(records[i]), u)
    && forall j :: i < j < |records| ==> !About(records[j], IdOf(records[i]), u)
  }

  lemma PrintsIff(page: PageData, u: Unicode)
    ensures Prints(page, PageLayoutOf(u)) <==> Trim(page.id) != [] && Printable(page, u)
  {
    TrimmedPaths(u, page.id, NewState(page));
    PlacesDefined(page, u);
  }

  lemma NextIs(live: Live, record: Record, id: Str, u: Unicode)
    ensures
      var next := Next(live, record, PageLayoutOf(u));
      if !About(record, id, u) then (id in next <==> id in live) && (id in next ==> next[id] == live[id])
      else if record.Full? then id in next && next[id] == record.page
      else id !in next
  {
    if record.Full? { PrintsIff(record.page, u); }
  }

  /** The records of a run, in order. */
  function Flat(batches: seq<seq<Record>>): seq<Record> {
    if batches == [] then [] else Flat(batches[..|batches| - 1]) + batches[|batches| - 1]
  }

  lemma {:induction false} LiveConcat(live: Live, a: seq<Record>, b: seq<Record>, layout: PageLayout)
    ensures LiveBatch(live, a + b, layout) == LiveBatch(LiveBatch(live, a, layout), b, layout)
  {
    if b == [] {
      assert a + b == a;
    } else {
      assert (a + b)[..|a + b| - 1] == a + b[..|b| - 1];
      LiveConcat(live, a, b[..|b| - 1], layout);
    }
  }

  lemma {:induction false} LiveRunIsFlat(batches: seq<seq<Record>>, layout: PageLayout)
    ensures LiveRun(map[], batches, layout) == LiveBatch(map[], Flat(batches), layout)
  {
    if batches == [] {
    } else {
      LiveRunIsFlat(batches[..|batches| - 1], layout);
      LiveConcat(map[], Flat(batches[..|batches| - 1]), batches[|batches| - 1], layout);
    }
  }

  /** A page is live exactly when the last record about it writes it. */
  lemma {:induction false} LiveIsLatest(records: seq<Record>, id: Str, u: Unicode)
    ensures
      var live := LiveBatch(map[], records, PageLayoutOf(u));
      var i := LastWhere(records, record => About(record, id, u));
      && (id in live <==> i >= 0 && records[i].Full?)
      && (id in live ==> live[id] == records[i].page)
  {
    if records == [] {
    } else {
      var front, last := records[..|records| - 1], records[|records| - 1];
      LiveIsLatest(front, id, u);
      NextIs(LiveBatch(map[], front, PageLayoutOf(u)), last, id, u);
    }
  }

  lemma LatestIsLive(records: seq<Record>, i: nat, u: Unicode)
    requires IsLatest(records, i, u)
    ensures
      var live := LiveBatch(map[], records, PageLayoutOf(u));
      IdOf(records[i]) in live && live[IdOf(records[i])] == records[i].page
  {
    var id := IdOf(records[i]);
    LiveIsLatest(records, id, u);
    assert LastWhere(records, record => About(record, id, u)) == i;
  }

  lemma LiveHasLatest(records: seq<Record>, id: Str, u: Unicode) returns (i: nat)
    requires id in LiveBatch(map[], records, PageLayoutOf(u))
    ensures IsLatest(records, i, u) && IdOf(records[i]) == id
    ensures records[i].page == LiveBatch(map[], records, PageLayoutOf(u))[id]
  {
    LiveIsLatest(records, id, u);
    i := LastWhere(records, record => About(record, id, u));
  }

  /** The last record about a page writes it and its fields call for the path. */
  predicate LeadsTo(place: Place, records: seq<Record>, i: nat, u: Unicode) {
    IsLatest(records, i, u) && CallsFor(place, records[i].page, u)
  }

  predicate Holds(files: Files, p: Str, page: PageData) { p in files && files[p] == page }

  lemma HasIff(page: PageData, place: Place, u: Unicode)
    requires PlainPlace(place) && PageLayoutOf(u).paths(page.id, NewState(page)).Some?
    ensures Has(page, Print(place), SchemeOf(PageLayoutOf(u))) <==> CallsFor(place, page, u)
  {
    TrimmedPaths(u, page.id, NewState(page));
    PathsAre(place, page, u);
  }

  lemma LiveHas(live: Live, layout: PageLayout, k: Str)
    requires GoodPages(layout) && LiveKeys(live, SchemeOf(layout)) && k in live
    ensures layout.paths(live[k].id, NewState(live[k])).Some?
  {
    assert SchemeOf(layout).targets(live[k]).Some?;
  }

  lemma LiveHolds(files: Files, live: Live, layout: PageLayout, k: Str, p: Str)
    requires Mirrors(files, live, SchemeOf(layout)) && k in live && Has(live[k], p, SchemeOf(layout))
    ensures Holds(files, p, live[k])
  {}

  lemma LatestIsThere(files: Files, live: Live, records: seq<Record>, i: nat, place: Place, u: Unicode)
    requires PlainPlace(place) && LeadsTo(place, records, i, u)
    requires live == LiveBatch(map[], records, PageLayoutOf(u)) && World(files, live, PageLayoutOf(u))
    ensures Holds(files, Print(place), records[i].page)
  {
    LatestIsLive(records, i, u);
    LiveHas(live, PageLayoutOf(u), IdOf(records[i]));
    HasIff(records[i].page, place, u);
    LiveHolds(files, live, PageLayoutOf(u), IdOf(records[i]), Print(place));
  }

  lemma ThereIsLatest(files: Files, live: Live, records: seq<Record>, place: Place, u: Unicode) returns (i: nat)
    requires PlainPlace(place) && Print(place) in files
    requires live == LiveBatch(map[], records, PageLayoutOf(u)) && World(files, live, PageLayoutOf(u))
    ensures LeadsTo(place, records, i, u)
  {
    assert Owned(live, Print(place), SchemeOf(PageLayoutOf(u)));
    var k: Str :| k in live && Has(live[k], Print(place), SchemeOf(PageLayoutOf(u)));
    i := LiveHasLatest(records, k, u);
    LiveHas(live, PageLayoutOf(u), k);
    HasIff(live[k], place, u);
  }

  /**
   * After every run of settled batches of camelCase pages with disjoint paths, a path is there exactly when
   * the last record about some page writes it and its fields call for the path; it then holds that page. The
   * index has exactly the pages whose last record writes them.
   */
  lemma RunsLeadToLatest(batches: seq<seq<Record>>, u: Unicode, place: Place, id: Str)
    requires GoodRun(batches, PageLayoutOf(u)) && PlainPlace(place)
    ensures
      var store, records := Run(Store(map[], map[]), batches, PageLayoutOf(u)), Flat(batches);
      && (Print(place) in store.files <==> exists i: nat :: LeadsTo(place, records, i, u))
      && (forall i: nat :: LeadsTo(place, records, i, u) ==> Holds(store.files, Print(place), records[i].page))
      && (id in store.index <==> exists i: nat :: IsLatest(records, i, u) && IdOf(records[i]) == id)
      && (forall i: nat :: IsLatest(records, i, u) && IdOf(records[i]) == id ==>
           id in store.index && store.index[id] == records[i].page)
  {
    var layout, records := PageLayoutOf(u), Flat(batches);
    var store, live := Run(Store(map[], map[]), batches, layout), LiveRun(map[], batches, layout);
    PagesAreGood(u);
    RunInStep(batches, layout);
    LiveRunIsFlat(batches, layout);
    forall i: nat | LeadsTo(place, records, i, u) ensures Holds(store.files, Print(place), records[i].page) {
      LatestIsThere(store.files, live, records, i, place, u);
    }
    if Print(place) in store.files {
      var i := ThereIsLatest(store.files, live, records, place, u);
    }
    forall i: nat | IsLatest(records, i, u) && IdOf(records[i]) == id
      ensures id in store.index && store.index[id] == records[i].page
    {
      LatestIsLive(records, i, u);
    }
    if id in store.index {
      var i := LiveHasLatest(records, id, u);
    }
  }
}
