/**
 * The Confluence batch emitter over whole runs: page files mirror the live pages, the index
 * lists them exactly when each batch is settled, and exactly when a bare tombstone removes
 * everything a page left.
 */
module ConfluenceBatchRuns {
  import opened Wrappers
  import opened JsStrings
  import opened PathSegments
  import opened StatusSlugs
  import opened AliasStore
  import opened ConfluencePaths
  import ConfluenceAdapter
  import opened IndexFiles
  import opened ConfluenceBatch

  // ---------------------------------------------------------------------------
  // The paths of a page
  // ---------------------------------------------------------------------------

  ghost predicate GoodPages(layout: PageLayout) {
    && (forall id: Str, s: PageState :: layout.paths(id, s).Some? ==>
         Distinct(layout.paths(id, s).value) && layout.anchor(id).Some?
           && layout.anchor(id).value in layout.paths(id, s).value)
    && (forall id: Str, s: PageState :: layout.paths(Trim(id), s) == layout.paths(id, s))
    && (forall id: Str :: layout.anchor(Trim(id)) == layout.anchor(id))
    && (forall id: Str :: layout.anchor(id).Some? ==> layout.paths(id, BARE).Some?)
    && (forall a: Str, b: Str :: layout.anchor(a).Some? && layout.anchor(a) == layout.anchor(b) ==> Trim(a) == Trim(b))
  }

  lemma AliasPagesListed(id: Str, state: PageState, t: Text)
    requires GoodText(t) && Plain(id) && AliasPages(id, state, t).Some?
    ensures Listed(AliasPages(id, state, t).value, Page, id, 1, 7)
    ensures AliasPages(id, state, t).value[0] == PageById(id)
  {
    SpaceAndParent(id, t);
    StateListed(id, t);
    TitleListed(state.title, Page, t, id);
    FieldListed(state.status, PageByStateOf(id, t), Page, id, 3);
    FieldListed(state.editedDate, PageByEditedOf(id, t), Page, id, 4);
    FieldListed(state.spaceId, PageBySpaceOf(id, t), Page, id, 5);
    FieldListed(state.parentId, PageByParentOf(id, t), Page, id, 6);
    var byState, byEdited := AliasFor(state.status, PageByStateOf(id, t)).value,
      AliasFor(state.editedDate, PageByEditedOf(id, t)).value;
    ListedConcat(byState, byEdited, Page, id, 3, 4, 5);
    ListedFive(id, TitleAlias(state.title, Page, t), byState + byEdited,
               AliasFor(state.spaceId, PageBySpaceOf(id, t)).value,
               AliasFor(state.parentId, PageByParentOf(id, t)).value);
  }

  lemma PageParts(id: Str, state: PageState, t: Text) returns (encoded: Str, canonical: Place, aliases: seq<Place>)
    requires PagePlaces(id, state, t).Some?
    ensures CanonicalPage(id, state, t) == Some(canonical)
    ensures t.segment(id) == Some(encoded) && AliasPages(encoded, state, t) == Some(aliases)
    ensures PagePlaces(id, state, t) == Some([canonical] + aliases)
  {
    encoded := t.segment(id).value;
    canonical := CanonicalPage(id, state, t).value;
    aliases := AliasPages(encoded, state, t).value;
  }

  lemma CanonicalPageListed(id: Str, state: PageState, t: Text)
    requires GoodText(t) && CanonicalPage(id, state, t).Some? && t.segment(id).Some?
    ensures Names(CanonicalPage(id, state, t).value, Page, t.segment(id).value)
      && Rank(CanonicalPage(id, state, t).value) == 0
  {
    NamePlain(state.title, id, t);
    var name := NameWithId(state.title, id, t).value;
    match state.spaceId
    case None => FileNames(None, name, t.segment(id).value);
    case Some(spaceId) => FileNames(t.segment(spaceId), name, t.segment(id).value);
  }

  lemma PagePlacesListed(id: Str, state: PageState, t: Text)
    requires GoodText(t) && PagePlaces(id, state, t).Some?
    ensures t.segment(id).Some? && PageById(t.segment(id).value) in PagePlaces(id, state, t).value
    ensures Listed(PagePlaces(id, state, t).value, Page, t.segment(id).value, 0, 7)
  {
    var encoded, canonical, aliases := PageParts(id, state, t);
    CanonicalPageListed(id, state, t);
    AliasPagesListed(encoded, state, t);
    FirstAndRest(canonical, aliases, Page, encoded);
  }

  lemma BatchTextIsGood(u: Unicode)
    ensures GoodText(BatchText(u))
  {
    TextIsGood(u);
  }

  lemma PathsGood(u: Unicode, id: Str, s: PageState)
    requires PageLayoutOf(u).paths(id, s).Some?
    ensures Distinct(PageLayoutOf(u).paths(id, s).value)
    ensures PageLayoutOf(u).anchor(id).Some? && PageLayoutOf(u).anchor(id).value in PageLayoutOf(u).paths(id, s).value
  {
    BatchTextIsGood(u);
    PagePlacesListed(id, s, BatchText(u));
    var places, encoded := PagePlaces(id, s, BatchText(u)).value, BatchText(u).segment(id).value;
    ConfluenceAdapter.ListedDistinct(places, Page, encoded);
    var i :| 0 <= i < |places| && places[i] == PageById(encoded);
    assert ConfluenceAdapter.PrintAll(places)[i] == Print(PageById(encoded));
  }

  lemma TrimmedPlaces(t: Text, id: Str, s: PageState)
    requires GoodText(t)
    ensures PagePlaces(Trim(id), s, t) == PagePlaces(id, s, t)
  {
    assert t.segment(Trim(id)) == t.segment(id);
    assert NameWithId(s.title, Trim(id), t) == NameWithId(s.title, id, t);
  }

  lemma TrimmedPaths(u: Unicode, id: Str, s: PageState)
    ensures PageLayoutOf(u).paths(Trim(id), s) == PageLayoutOf(u).paths(id, s)
  {
    BatchTextIsGood(u);
    TrimmedPlaces(BatchText(u), id, s);
  }

  lemma Anchors(u: Unicode, a: Str, b: Str)
    ensures PageLayoutOf(u).anchor(Trim(a)) == PageLayoutOf(u).anchor(a)
    ensures PageLayoutOf(u).anchor(a).Some? ==> PageLayoutOf(u).paths(a, BARE).Some?
    ensures PageLayoutOf(u).anchor(a).Some? && PageLayoutOf(u).anchor(a) == PageLayoutOf(u).anchor(b) ==>
      Trim(a) == Trim(b)
  {
    BatchTextIsGood(u);
    var t := BatchText(u);
    assert t.segment(Trim(a)) == t.segment(a);
    if Anchor(Page, a, t).Some? && PageLayoutOf(u).anchor(a) == PageLayoutOf(u).anchor(b) {
      PrintedAnchors(Page, a, Page, b, t);
    }
    if t.segment(a).Some? { BarePrints(a, t); }
  }

  lemma BarePrints(id: Str, t: Text)
    requires t.segment(id).Some?
    ensures PagePlaces(id, BARE, t).Some?
  {
    assert CanonicalPage(id, BARE, t) == Some(PageFile(None, t.segment(id).value));
    assert AliasPages(t.segment(id).value, BARE, t).Some?;
  }

  lemma PagesAreGood(u: Unicode)
    ensures GoodPages(PageLayoutOf(u))
  {
    var layout := PageLayoutOf(u);
    forall id: Str, s: PageState | layout.paths(id, s).Some?
      ensures Distinct(layout.paths(id, s).value) && layout.anchor(id).Some?
        && layout.anchor(id).value in layout.paths(id, s).value
    {
      PathsGood(u, id, s);
    }
    forall id: Str, s: PageState ensures layout.paths(Trim(id), s) == layout.paths(id, s) { TrimmedPaths(u, id, s); }
    forall id: Str ensures layout.anchor(Trim(id)) == layout.anchor(id) { Anchors(u, id, id); }
    forall id: Str | layout.anchor(id).Some? ensures layout.paths(id, BARE).Some? { Anchors(u, id, id); }
    forall a: Str, b: Str | layout.anchor(a).Some? && layout.anchor(a) == layout.anchor(b) ensures Trim(a) == Trim(b) {
      Anchors(u, a, b);
    }
  }

  // ---------------------------------------------------------------------------
  // One record
  // ---------------------------------------------------------------------------

  /** A page belongs to its trimmed id and lies at the paths of its camelCase fields. */
  function SchemeOf(layout: PageLayout): Scheme<PageData, Str> {
    Scheme((page: PageData) => Trim(page.id), (page: PageData) => layout.paths(Trim(page.id), NewState(page)))
  }

  type Live = map<Str, PageData>

  /** Space and parent are read alike when the page is written and when it is read back. */
  predicate Camel(page: PageData) { PriorState(page) == NewState(page) }

  ghost predicate World(files: Files, live: Live, layout: PageLayout) {
    GoodPages(layout) && Mirrors(files, live, SchemeOf(layout)) && forall k :: k in live ==> Camel(live[k])
  }

  predicate Prints(page: PageData, layout: PageLayout) {
    ReadString(Some(page.id)).Some? && SchemeOf(layout).targets(page).Some?
  }

  function BarePaths(id: Str, layout: PageLayout): seq<Str> {
    if layout.paths(id, BARE).Some? then layout.paths(id, BARE).value else []
  }

  /** Pages use trimmed ids and camelCase fields and share no path; tombstones of unknown ids hit no other page. */
  ghost predicate GoodRecord(live: Live, record: Record, layout: PageLayout) {
    match record
    case Full(page) => Prints(page, layout) ==>
      Trim(page.id) == page.id && Camel(page) && Disjoint(live[page.id := page], SchemeOf(layout))
    case Tombstone(id) =>
      Trim(id) == id && Spares(live, id, BarePaths(id, layout), SchemeOf(layout))
  }

  function Next(live: Live, record: Record, layout: PageLayout): Live {
    match record
    case Full(page) => if Prints(page, layout) then live[Trim(page.id) := page] else live
    case Tombstone(id) => live - {Trim(id)}
  }

  /** What the by-id file of an id holds. */
  lemma AnchorHolds(files: Files, live: Live, id: Str, layout: PageLayout)
    requires World(files, live, layout) && layout.anchor(id).Some?
    requires forall j, p :: j in live && j != Trim(id) && layout.anchor(id) == Some(p) ==>
      !Has(live[j], p, SchemeOf(layout))
    ensures layout.anchor(id).value in files <==> Trim(id) in live
    ensures Trim(id) in live ==> files[layout.anchor(id).value] == live[Trim(id)]
  {
    var anchor, k, scheme := layout.anchor(id).value, Trim(id), SchemeOf(layout);
    if k in live { AnchorIsTarget(live, id, layout); }
    OnlyOwner(files, live, scheme, anchor, k);
  }

  lemma AnchorIsTarget(live: Live, id: Str, layout: PageLayout)
    requires GoodPages(layout) && LiveKeys(live, SchemeOf(layout)) && layout.anchor(id).Some? && Trim(id) in live
    ensures Has(live[Trim(id)], layout.anchor(id).value, SchemeOf(layout))
  {
    var page := live[Trim(id)];
    assert SchemeOf(layout).key(page) == Trim(page.id) == Trim(id);
    assert SchemeOf(layout).targets(page).Some?;
    assert layout.paths(Trim(page.id), NewState(page)).Some?;
    assert layout.anchor(Trim(page.id)) == layout.anchor(page.id) && layout.anchor(Trim(id)) == layout.anchor(id);
  }

  lemma AppliedAt(files: Files, plan: Plan, content: PageData, p: Str)
    ensures p in Applied(files, plan, content) <==> p in plan.writes || (p in files && p !in plan.deletes)
    ensures p in Applied(files, plan, content) ==>
      Applied(files, plan, content)[p] == if p in plan.writes then content else files[p]
  {}

  lemma WritePlan(files: Files, live: Live, page: PageData, layout: PageLayout)
    requires World(files, live, layout) && GoodRecord(live, Full(page), layout) && Prints(page, layout)
    ensures
      var plan := PlanWrite(files, page, layout);
      && plan.Some? && plan.value.writes == SchemeOf(layout).targets(page).value
      && (forall p :: p in plan.value.deletes <==>
           page.id in live && Has(live[page.id], p, SchemeOf(layout)) && !Has(page, p, SchemeOf(layout)))
      && plan.value.actions == [Upsert(page.id, page)]
  {
    var scheme, anchor := SchemeOf(layout), layout.anchor(page.id).value;
    DisjointOwn(live, page, scheme);
    assert Has(page, anchor, scheme);
    AnchorHolds(files, live, page.id, layout);
    if page.id in live {
      var prior := live[page.id];
      assert scheme.key(prior) == page.id && Camel(prior);
      assert layout.paths(page.id, PriorState(prior)) == scheme.targets(prior);
      OutdatedMembers(scheme.targets(prior).value, scheme.targets(page).value);
    }
  }

  lemma WriteMirrors(files: Files, live: Live, page: PageData, layout: PageLayout)
    requires World(files, live, layout) && GoodRecord(live, Full(page), layout) && Prints(page, layout)
    ensures
      var plan := PlanWrite(files, page, layout);
      plan.Some? && World(Applied(files, plan.value, page), live[page.id := page], layout)
  {
    WritePlan(files, live, page, layout);
    var plan, scheme := PlanWrite(files, page, layout).value, SchemeOf(layout);
    var after := Applied(files, plan, page);
    forall p
      ensures Has(page, p, scheme) ==> p in after && after[p] == page
      ensures !Has(page, p, scheme) ==>
        (p in after <==> p in files && !(page.id in live && Has(live[page.id], p, scheme)))
          && (p in after ==> after[p] == files[p])
    {
      AppliedAt(files, plan, page, p);
    }
    DisjointOwn(live, page, scheme);
    ReplaceMirrors(files, after, live, page, scheme, live[page.id := page]);
  }

  /** What a tombstone deletes: the paths of its page, or those of a page without fields. */
  lemma DeletePlan(files: Files, live: Live, id: Str, layout: PageLayout)
    requires World(files, live, layout) && GoodRecord(live, Tombstone(id), layout)
    ensures id in live ==> PlanDelete(files, id, layout).Some?
    ensures PlanDelete(files, id, layout).Some? ==>
      var plan := PlanDelete(files, id, layout).value;
      && plan.writes == [] && plan.actions == [Remove(id)]
      && plan.deletes == if id in live then SchemeOf(layout).targets(live[id]).value else BarePaths(id, layout)
  {
    var scheme := SchemeOf(layout);
    if id in live {
      assert scheme.key(live[id]) == id && Camel(live[id]);
      var anchor := layout.anchor(id).value;
      assert Has(live[id], anchor, scheme);
      assert files[anchor] == live[id];
    } else if layout.anchor(id).Some? {
      assert layout.anchor(id).value in BarePaths(id, layout);
      AnchorHolds(files, live, id, layout);
    }
  }

  lemma DeleteMirrorsPages(files: Files, live: Live, id: Str, layout: PageLayout)
    requires World(files, live, layout) && GoodRecord(live, Tombstone(id), layout)
      && PlanDelete(files, id, layout).Some?
    ensures World(Applied(files, PlanDelete(files, id, layout).value, Rendered(Tombstone(id))), live - {id}, layout)
  {
    DeletePlan(files, live, id, layout);
    var plan, scheme := PlanDelete(files, id, layout).value, SchemeOf(layout);
    var after := Applied(files, plan, Rendered(Tombstone(id)));
    forall p ensures (p in after <==> p in files && p !in plan.deletes) && (p in after ==> after[p] == files[p]) {
      AppliedAt(files, plan, Rendered(Tombstone(id)), p);
    }
    assert Deletes(files, after, plan.deletes);
    if id in live { SparesOwn(files, live, id, scheme); }
    DeleteMirrors(files, after, live, id, plan.deletes, scheme, live - {id});
  }

  lemma SparesOwn(files: Files, live: Live, id: Str, scheme: Scheme<PageData, Str>)
    requires Mirrors(files, live, scheme) && id in live
    ensures Spares(live, id, scheme.targets(live[id]).value, scheme)
  {
    forall j: Str, p: Str | j in live && j != id && p in scheme.targets(live[id]).value
      ensures !Has(live[j], p, scheme)
    {
      assert Has(live[id], p, scheme);
      if Has(live[j], p, scheme) { OneOwner(files, live, scheme, p, j, id); }
    }
  }

  /** What a record queues for the index. */
  function ActionsOf(record: Record, layout: PageLayout): seq<Action<PageData>> {
    match record
    case Full(page) => if Prints(page, layout) then [Upsert(page.id, page)] else []
    case Tombstone(id) => if layout.anchor(id).Some? then [Remove(id)] else []
  }

  lemma PageStep(st: State, live: Live, page: PageData, layout: PageLayout)
    requires World(st.files, live, layout) && GoodRecord(live, Full(page), layout)
    ensures World(Step(st, Full(page), layout).files, Next(live, Full(page), layout), layout)
    ensures Step(st, Full(page), layout).actions == st.actions + ActionsOf(Full(page), layout)
  {
    if Prints(page, layout) {
      WritePlan(st.files, live, page, layout);
      WriteMirrors(st.files, live, page, layout);
    } else {
      PrintedPlan(st.files, page, layout);
      assert Applied(st.files, Plan([], [], []), page) == st.files;
      assert st.actions + [] == st.actions;
    }
  }

  lemma PlannedTombstone(st: State, id: Str, layout: PageLayout)
    requires layout.anchor(id).Some? && PlanDelete(st.files, id, layout).Some?
    ensures Step(st, Tombstone(id), layout).files
      == Applied(st.files, PlanDelete(st.files, id, layout).value, Rendered(Tombstone(id)))
    ensures Step(st, Tombstone(id), layout).actions == st.actions + ActionsOf(Tombstone(id), layout)
  {}

  lemma TombstoneStep(st: State, live: Live, id: Str, layout: PageLayout)
    requires World(st.files, live, layout) && GoodRecord(live, Tombstone(id), layout)
    ensures World(Step(st, Tombstone(id), layout).files, Next(live, Tombstone(id), layout), layout)
    ensures Step(st, Tombstone(id), layout).actions == st.actions + ActionsOf(Tombstone(id), layout)
  {
    if layout.anchor(id).Some? {
      DeletePlan(st.files, live, id, layout);
      PlannedTombstone(st, id, layout);
      DeleteMirrorsPages(st.files, live, id, layout);
    } else {
      UnprintableTombstone(st, live, id, layout);
    }
  }

  lemma UnprintableTombstone(st: State, live: Live, id: Str, layout: PageLayout)
    requires World(st.files, live, layout) && Trim(id) == id && layout.anchor(id).None?
    ensures Step(st, Tombstone(id), layout).files == st.files
      && Step(st, Tombstone(id), layout).actions == st.actions + []
    ensures live - {id} == live
  {
    assert forall k :: k in live ==> layout.paths(Trim(live[k].id), NewState(live[k])).Some? && Trim(live[k].id) == k;
    assert id !in live;
  }

  /** One record keeps the page files a mirror of the live pages. */
  lemma StepMirrors(st: State, live: Live, record: Record, layout: PageLayout)
    requires World(st.files, live, layout) && GoodRecord(live, record, layout)
    ensures World(Step(st, record, layout).files, Next(live, record, layout), layout)
    ensures Step(st, record, layout).actions == st.actions + ActionsOf(record, layout)
  {
    match record
    case Full(page) => PageStep(st, live, page, layout);
    case Tombstone(id) => TombstoneStep(st, live, id, layout);
  }

  /** The actions a record queues say what it does to the live pages. */
  lemma ActionsSay(files: Files, live: Live, record: Record, layout: PageLayout)
    requires World(files, live, layout) && GoodRecord(live, record, layout)
    ensures InOrder(live, ActionsOf(record, layout)) == Next(live, record, layout)
  {
    match record
    case Full(page) => if Prints(page, layout) { OneAction(live, Upsert(page.id, page)); }
    case Tombstone(id) =>
      DeletePlan(files, live, id, layout);
      if layout.anchor(id).Some? {
        OneAction(live, Remove(id));
      } else {
        assert live - {id} == live;
      }
  }

  lemma OneAction(live: Live, action: Action<PageData>)
    ensures InOrder(live, [action]) == if action.Upsert? then live[action.id := action.row] else live - {action.id}
  {
    assert [action][..0] == [] && InOrder(live, []) == live;
  }

  /** A page that cannot be planned leaves files and index alone. */
  lemma PrintedPlan(files: Files, page: PageData, layout: PageLayout)
    ensures !Prints(page, layout) ==>
      PlanWrite(files, page, layout).None? || PlanWrite(files, page, layout) == Some(Plan([], [], []))
  {
    if ReadString(Some(page.id)).Some? { assert ReadString(Some(page.id)).value == Trim(page.id); }
  }

  // ---------------------------------------------------------------------------
  // Batches and runs
  // ---------------------------------------------------------------------------

  function LiveBatch(live: Live, records: seq<Record>, layout: PageLayout): Live {
    if records == [] then live
    else Next(LiveBatch(live, records[..|records| - 1], layout), records[|records| - 1], layout)
  }

  /** Everything a batch queues, in order. */
  function Queue(records: seq<Record>, layout: PageLayout): seq<Action<PageData>> {
    if records == [] then []
    else Queue(records[..|records| - 1], layout) + ActionsOf(records[|records| - 1], layout)
  }

  ghost predicate GoodBatch(live: Live, records: seq<Record>, layout: PageLayout) {
    forall i :: 0 <= i < |records| ==> GoodRecord(LiveBatch(live, records[..i], layout), records[i], layout)
  }

  lemma GoodFront(live: Live, records: seq<Record>, layout: PageLayout)
    requires records != [] && GoodBatch(live, records, layout)
    ensures GoodBatch(live, records[..|records| - 1], layout)
    ensures GoodRecord(LiveBatch(live, records[..|records| - 1], layout), records[|records| - 1], layout)
  {
    var front := records[..|records| - 1];
    forall i | 0 <= i < |front| ensures GoodRecord(LiveBatch(live, front[..i], layout), front[i], layout) {
      assert front[..i] == records[..i];
    }
  }

  lemma {:induction false} BatchMirrors(st: State, live: Live, records: seq<Record>, layout: PageLayout)
    requires World(st.files, live, layout) && st.actions == [] && GoodBatch(live, records, layout)
    ensures World(Batch(st, records, layout).files, LiveBatch(live, records, layout), layout)
    ensures Batch(st, records, layout).actions == Queue(records, layout)
    ensures InOrder(live, Queue(records, layout)) == LiveBatch(live, records, layout)
  {
    if records == [] {
    } else {
      var front, last := records[..|records| - 1], records[|records| - 1];
      GoodFront(live, records, layout);
      BatchMirrors(st, live, front, layout);
      StepMirrors(Batch(st, front, layout), LiveBatch(live, front, layout), last, layout);
      ActionsSay(Batch(st, front, layout).files, LiveBatch(live, front, layout), last, layout);
      InOrderConcat(live, Queue(front, layout), ActionsOf(last, layout));
    }
  }

  /**
   * A batch keeps the page files a mirror of the live pages, and leaves the index listing exactly
   * those pages if and only if no page is written and then removed last in the batch.
   */
  lemma BatchKeepsMirrorAndIndex(files: Files, live: Live, records: seq<Record>, layout: PageLayout)
    requires World(files, live, layout) && GoodBatch(live, records, layout)
    ensures
      var end := Batch(State(files, [], 0, 0, []), records, layout);
      && World(end.files, LiveBatch(live, records, layout), layout)
      && (Flushed(live, end.actions) == LiveBatch(live, records, layout) <==> Settled(Queue(records, layout)))
  {
    BatchMirrors(State(files, [], 0, 0, []), live, records, layout);
    FlushIsInOrder(live, Queue(records, layout));
  }

  datatype Store = Store(files: Files, index: Table<PageData>)

  function Emit(store: Store, records: seq<Record>, layout: PageLayout): Store {
    var end := Batch(State(store.files, [], 0, 0, []), records, layout);
    Store(end.files, Flushed(store.index, end.actions))
  }

  function Run(store: Store, batches: seq<seq<Record>>, layout: PageLayout): Store {
    if batches == [] then store
    else Emit(Run(store, batches[..|batches| - 1], layout), batches[|batches| - 1], layout)
  }

  function LiveRun(live: Live, batches: seq<seq<Record>>, layout: PageLayout): Live {
    if batches == [] then live
    else LiveBatch(LiveRun(live, batches[..|batches| - 1], layout), batches[|batches| - 1], layout)
  }

  ghost predicate GoodRun(batches: seq<seq<Record>>, layout: PageLayout) {
    forall i :: 0 <= i < |batches| ==>
      GoodBatch(LiveRun(map[], batches[..i], layout), batches[i], layout) && Settled(Queue(batches[i], layout))
  }

  /** The page files mirror the live pages and the index lists exactly them. */
  ghost predicate InStep(store: Store, live: Live, layout: PageLayout) {
    World(store.files, live, layout) && store.index == live
  }

  lemma {:induction false} RunInStep(batches: seq<seq<Record>>, layout: PageLayout)
    requires GoodPages(layout) && GoodRun(batches, layout)
    ensures InStep(Run(Store(map[], map[]), batches, layout), LiveRun(map[], batches, layout), layout)
  {
    if batches == [] {
    } else {
      var front, last := batches[..|batches| - 1], batches[|batches| - 1];
      forall i | 0 <= i < |front|
        ensures GoodBatch(LiveRun(map[], front[..i], layout), front[i], layout) && Settled(Queue(front[i], layout))
      {
        assert front[..i] == batches[..i];
      }
      RunInStep(front, layout);
      BatchKeepsMirrorAndIndex(Run(Store(map[], map[]), front, layout).files, LiveRun(map[], front, layout), last,
                               layout);
    }
  }

  /**
   * After every run of settled batches of camelCase pages with disjoint paths, a bare tombstone
   * removes every path any earlier batch left for its page, and its index row.
   */
  lemma TombstoneRemovesEverything(batches: seq<seq<Record>>, id: Str, u: Unicode)
    requires GoodRun(batches + [[Tombstone(id)]], PageLayoutOf(u))
    ensures
      var layout := PageLayoutOf(u);
      var store, live := Run(Store(map[], map[]), batches + [[Tombstone(id)]], layout),
        LiveRun(map[], batches, layout) - {id};
      InStep(store, live, layout) && id !in store.index
  {
    var layout, all := PageLayoutOf(u), batches + [[Tombstone(id)]];
    PagesAreGood(u);
    RunInStep(all, layout);
    assert all[..|all| - 1] == batches;
    var live := LiveRun(map[], batches, layout);
    assert [Tombstone(id)][..0] == [];
    assert GoodBatch(LiveRun(map[], all[..|batches|], layout), all[|batches|], layout);
    assert GoodRecord(LiveBatch(live, [Tombstone(id)][..0], layout), [Tombstone(id)][0], layout);
  }

  lemma NameHead(title: Option<Str>, id: Str, t: Text)
    requires GoodText(t) && NameWithId(title, id, t).Some? && UNDERSCORE !in t.segment(id).value
    ensures NameWithId(title, id, t).value != [] && NameWithId(title, id, t).value[0] != UNDERSCORE
  {
    if title.Some? { SlugPlain(t.name(title.value)); }
  }

  lemma OnlyCanonical(id: Str, state: PageState, t: Text, place: Place)
    requires GoodText(t) && PagePlaces(id, state, t).Some? && place in PagePlaces(id, state, t).value && place.PageFile?
    ensures CanonicalPage(id, state, t) == Some(place)
  {
    var encoded, canonical, aliases := PageParts(id, state, t);
    PagePlacesListed(id, state, t);
    AliasPagesListed(encoded, state, t);
    assert forall a :: a in aliases ==> Rank(a) >= 1;
  }

  lemma IndexName()
    ensures PlainPlace(PageFile(None, U("_index"))) && U("_index")[0] == UNDERSCORE
  {}

  lemma NotTheIndex(place: Place)
    requires PlainPlace(place) && place != PageFile(None, U("_index"))
    ensures Print(place) != IndexPath()
  {
    IndexName();
    if Print(place) == IndexPath() { PrintInjective(place, PageFile(None, U("_index"))); }
  }

  /** A page whose encoded id holds no underscore is never stored at the index file. */
  lemma IndexApart(id: Str, state: PageState, t: Text, place: Place)
    requires GoodText(t) && PagePlaces(id, state, t).Some? && place in PagePlaces(id, state, t).value
      && PlainPlace(place)
    requires t.segment(id).Some? && UNDERSCORE !in t.segment(id).value
    ensures Print(place) != IndexPath()
  {
    IndexName();
    if place.PageFile? {
      OnlyCanonical(id, state, t, place);
      NameHead(state.title, id, t);
    }
    NotTheIndex(place);
  }

  // ---------------------------------------------------------------------------
  // Pages with snake_case fields
  // ---------------------------------------------------------------------------

  /** The space is read back as it was when the page was written. */
  predicate SpaceReadAlike(page: PageData) {
    ReadString(page.spaceId).Some? || ReadString(page.snakeSpaceId).None?
  }

  lemma SamePlaces(id: Str, now: PageState, prior: PageState, t: Text)
    requires PagePlaces(id, now, t).Some? && PagePlaces(id, prior, t).Some?
    requires prior == now.(parentId := prior.parentId) && (now.parentId.Some? ==> prior.parentId == now.parentId)
    ensures forall p :: p in PagePlaces(id, now, t).value ==> p in PagePlaces(id, prior, t).value
  {
    var encoded, canonical, aliases := PageParts(id, now, t);
    var encoded', canonical', aliases' := PageParts(id, prior, t);
    assert CanonicalPage(id, now, t) == CanonicalPage(id, prior, t);
    SameAliases(encoded, now, prior, t);
  }

  lemma SameAliases(id: Str, now: PageState, prior: PageState, t: Text)
    requires AliasPages(id, now, t).Some? && AliasPages(id, prior, t).Some?
    requires prior == now.(parentId := prior.parentId) && (now.parentId.Some? ==> prior.parentId == now.parentId)
    ensures forall p :: p in AliasPages(id, now, t).value ==> p in AliasPages(id, prior, t).value
  {}

  /** A page in no space lies at a flat path; read back with a space, it would lie in that space. */
  lemma OtherCanonical(id: Str, now: PageState, prior: PageState, t: Text)
    requires GoodText(t) && PagePlaces(id, now, t).Some? && PagePlaces(id, prior, t).Some?
    requires now.spaceId.None? && prior.spaceId.Some?
    ensures CanonicalPage(id, now, t).Some? && CanonicalPage(id, now, t).value in PagePlaces(id, now, t).value
    ensures CanonicalPage(id, now, t).value !in PagePlaces(id, prior, t).value
  {
    var encoded, canonical, aliases := PageParts(id, now, t);
    var encoded', canonical', aliases' := PageParts(id, prior, t);
    assert canonical == ([canonical] + aliases)[0];
    PagePlacesListed(id, prior, t);
    AliasPagesListed(encoded', prior, t);
    forall i | 0 <= i < |aliases'| ensures aliases'[i] != canonical { assert Rank(aliases'[i]) >= 1; }
  }

  /**
   * The paths recovered from a stored page cover the paths it was written to exactly when its
   * space is read back as it was written: the reader falls back to space_id, the writer does not.
   */
  lemma RecoveredPathsCover(page: PageData, u: Unicode)
    requires PageLayoutOf(u).paths(page.id, NewState(page)).Some?
      && PageLayoutOf(u).paths(page.id, PriorState(page)).Some?
    ensures (forall p :: p in PageLayoutOf(u).paths(page.id, NewState(page)).value ==>
              p in PageLayoutOf(u).paths(page.id, PriorState(page)).value)
      <==> SpaceReadAlike(page)
  {
    var t, now, prior := BatchText(u), NewState(page), PriorState(page);
    BatchTextIsGood(u);
    var written, recovered := PagePlaces(page.id, now, t).value, PagePlaces(page.id, prior, t).value;
    if SpaceReadAlike(page) {
      SamePlaces(page.id, now, prior, t);
      SubPaths(written, recovered);
    } else {
      OtherCanonical(page.id, now, prior, t);
      PagePlacesListed(page.id, now, t);
      PagePlacesListed(page.id, prior, t);
      MissingPath(written, recovered, CanonicalPage(page.id, now, t).value, t.segment(page.id).value);
    }
  }

  lemma SubPaths(a: seq<Place>, b: seq<Place>)
    requires forall p :: p in a ==> p in b
    ensures forall p :: p in ConfluenceAdapter.PrintAll(a) ==> p in ConfluenceAdapter.PrintAll(b)
  {
    forall p | p in ConfluenceAdapter.PrintAll(a) ensures p in ConfluenceAdapter.PrintAll(b) {
      var i :| 0 <= i < |a| && Print(a[i]) == p;
      assert a[i] in b;
      var j :| 0 <= j < |b| && b[j] == a[i];
      assert ConfluenceAdapter.PrintAll(b)[j] == p;
    }
  }

  lemma MissingPath(a: seq<Place>, b: seq<Place>, place: Place, id: Str)
    requires Listed(a, Page, id, 0, 7) && Listed(b, Page, id, 0, 7) && place in a && place !in b
    ensures Print(place) in ConfluenceAdapter.PrintAll(a) && Print(place) !in ConfluenceAdapter.PrintAll(b)
  {
    var i :| 0 <= i < |a| && a[i] == place;
    assert ConfluenceAdapter.PrintAll(a)[i] == Print(place);
    forall j | 0 <= j < |b| ensures Print(b[j]) != Print(place) {
      if Print(b[j]) == Print(place) { PrintInjective(b[j], place); }
    }
  }
}
