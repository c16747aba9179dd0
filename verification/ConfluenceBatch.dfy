/**
 * The Confluence batch emitter, pages only: per record a plan of writes and deletes computed from
 * the by-id alias, and one flush of the page index per batch
 * (packages/confluence/src/emit-auxiliary-files.ts:182-281, 386-453 and
 * packages/core/src/emit-auxiliary/index.ts:198-251). Any call on the client may fail.
 */
module ConfluenceBatch {
  import opened Wrappers
  import opened JsStrings
  import opened StatusSlugs
  import opened AliasSlugs
  import opened AliasStore
  import opened ConfluencePaths
  import ConfluenceAdapter
  import opened IndexFiles
  import RollupPaths

  /** A page; `rest` stands for everything that decides neither its paths nor its index key. */
  datatype PageData = PageData(id: Str, title: Option<Str>, status: Option<Str>,
                               spaceId: Option<Str>, snakeSpaceId: Option<Str>,
                               parentId: Option<Str>, snakeParentId: Option<Str>,
                               versionCreatedAt: Option<Str>, createdAt: Option<Str>, rest: Str)

  datatype Record = Full(page: PageData) | Tombstone(id: Str)

  /** What decides the paths of a page, besides its id. */
  datatype PageState = PageState(title: Option<Str>, status: Option<Str>, spaceId: Option<Str>,
                                 parentId: Option<Str>, editedDate: Option<Str>)

  const BARE := PageState(None, None, None, None, None)

  /** editedDateSegment(readPageEditedAt(page)) */
  function EditedDate(page: PageData): Option<Str> {
    var at :- OrElse(ReadString(page.versionCreatedAt), ReadString(page.createdAt));
    if |at| >= 10 && RollupPaths.DatePattern(at[..10]) then Some(at[..10]) else None
  }

  /** What planPageWrite reads: the camelCase fields only. */
  function NewState(page: PageData): PageState {
    PageState(ReadString(page.title), ReadString(page.status), ReadString(page.spaceId), ReadString(page.parentId),
              EditedDate(page))
  }

  /** What extractPriorPageState reads: the snake_case fields too. */
  function PriorState(page: PageData): PageState {
    PageState(ReadString(page.title), ReadString(page.status),
              OrElse(ReadString(page.spaceId), ReadString(page.snakeSpaceId)),
              OrElse(ReadString(page.parentId), ReadString(page.snakeParentId)), EditedDate(page))
  }

  function PageByEditedOf(id: Str, t: Text): Str -> Option<Place> {
    date => match t.segment(date) case Some(text) => Some(PageByEdited(text, id)) case None => None
  }

  function CanonicalPage(id: Str, state: PageState, t: Text): Option<Place> {
    var name :- NameWithId(state.title, id, t);
    match state.spaceId
    case None => Some(PageFile(None, name))
    case Some(spaceId) =>
      var space :- t.segment(spaceId);
      Some(PageFile(Some(space), name))
  }

  function AliasPages(id: Str, state: PageState, t: Text): Option<seq<Place>> {
    var byState :- AliasFor(state.status, PageByStateOf(id, t));
    var byEdited :- AliasFor(state.editedDate, PageByEditedOf(id, t));
    var bySpace :- AliasFor(state.spaceId, PageBySpaceOf(id, t));
    var byParent :- AliasFor(state.parentId, PageByParentOf(id, t));
    Some([PageById(id)] + TitleAlias(state.title, Page, t) + (byState + byEdited) + bySpace + byParent)
  }

  /** pagePathsFor */
  function PagePlaces(id: Str, state: PageState, t: Text): Option<seq<Place>> {
    var canonical :- CanonicalPage(id, state, t);
    var encoded :- t.segment(id);
    var aliases :- AliasPages(encoded, state, t);
    Some([canonical] + aliases)
  }

  /** The paths of a page and its by-id path; None when printing throws. */
  datatype PageLayout = PageLayout(paths: (Str, PageState) -> Option<seq<Str>>, anchor: Str -> Option<Str>)

  /** Here a title slugs unless its slug is the fallback. */
  function BatchText(u: Unicode): Text { TextOf(u).(slugifies := s => ConfluenceAlias(s, u) != U("untitled")) }

  function PageLayoutOf(u: Unicode): PageLayout {
    PageLayout((id, state) => match PagePlaces(id, state, BatchText(u))
                              case Some(places) => Some(ConfluenceAdapter.PrintAll(places)) case None => None,
               id => match Anchor(Page, id, BatchText(u)) case Some(place) => Some(Print(place)) case None => None)
  }

  type Files = map<Str, PageData>

  // ---------------------------------------------------------------------------
  // The function computed
  // ---------------------------------------------------------------------------

  datatype Plan = Plan(writes: seq<Str>, deletes: seq<Str>, actions: seq<Action<PageData>>)

  /** diffPaths */
  function DiffPaths(prior: seq<Str>, next: seq<Str>): seq<Str> { Outdated(prior, next) }

  /** planPageWrite; None when it throws. */
  function PlanWrite(files: Files, page: PageData, layout: PageLayout): Option<Plan> {
    match ReadString(Some(page.id))
    case None => Some(Plan([], [], []))
    case Some(id) =>
      var paths :- layout.paths(id, NewState(page));
      var anchor :- layout.anchor(id);
      if anchor !in files then Some(Plan(paths, [], [Upsert(page.id, page)]))
      else
        var prior :- layout.paths(id, PriorState(files[anchor]));
        Some(Plan(paths, DiffPaths(prior, paths), [Upsert(page.id, page)]))
  }

  /** planPageDelete; None when it throws. */
  function PlanDelete(files: Files, id: Str, layout: PageLayout): Option<Plan> {
    var anchor :- layout.anchor(id);
    var paths :- layout.paths(id, if anchor in files then PriorState(files[anchor]) else BARE);
    Some(Plan([], paths, [Remove(id)]))
  }

  function PlanOf(files: Files, record: Record, layout: PageLayout): Option<Plan> {
    match record
    case Full(page) => PlanWrite(files, page, layout)
    case Tombstone(id) => PlanDelete(files, id, layout)
  }

  function Rendered(record: Record): PageData {
    match record case Full(page) => page
    case Tombstone(id) => PageData(id, None, None, None, None, None, None, None, None, [])
  }

  function Without(files: Files, deletes: seq<Str>): Files { map p | p in files && p !in deletes :: files[p] }

  function With(files: Files, writes: seq<Str>, content: PageData): Files { files + map p | p in writes :: content }

  /** The deletes, then the writes. */
  function Applied(files: Files, plan: Plan, content: PageData): Files {
    With(Without(files, plan.deletes), plan.writes, content)
  }

  datatype State = State(files: Files, actions: seq<Action<PageData>>, written: nat, deleted: nat, errors: seq<Str>)

  function Step(st: State, record: Record, layout: PageLayout): State {
    match PlanOf(st.files, record, layout)
    case None => st.(errors := st.errors + [[]])
    case Some(plan) =>
      State(Applied(st.files, plan, Rendered(record)), st.actions + plan.actions,
            st.written + |plan.writes|, st.deleted + |plan.deletes|, st.errors)
  }

  /** runEmitBatch when every call succeeds. */
  function Batch(st: State, records: seq<Record>, layout: PageLayout): State {
    if records == [] then st
    else Step(Batch(st, records[..|records| - 1], layout), records[|records| - 1], layout)
  }

  // ---------------------------------------------------------------------------
  // The same with failing calls
  // ---------------------------------------------------------------------------

  /**
   * How the client answers the calls for one record: its one read, and each path's delete and write.
   * A missing readFile or deleteFile acts like one that fails.
   */
  datatype Luck = Luck(readOk: bool, deleteOk: Str -> bool, writeOk: Str -> bool)

  /** PriorAliasReader takes a failed read for a missing file. */
  function Seen(files: Files, luck: Luck): Files { if luck.readOk then files else map[] }

  /** The paths whose calls succeed. */
  function Passing(paths: seq<Str>, ok: Str -> bool): seq<Str> { ConfluenceAdapter.Filter(paths, ok) }

  /** The paths whose calls fail. */
  function Failing(paths: seq<Str>, ok: Str -> bool): seq<Str> {
    ConfluenceAdapter.Filter(paths, ConfluenceAdapter.Not(ok))
  }

  function Tried(st: State, plan: Plan, content: PageData, luck: Luck): State {
    var deleted, written := Passing(plan.deletes, luck.deleteOk), Passing(plan.writes, luck.writeOk);
    State(With(Without(st.files, deleted), written, content), st.actions + plan.actions,
          st.written + |written|, st.deleted + |deleted|,
          st.errors + Failing(plan.deletes, luck.deleteOk) + Failing(plan.writes, luck.writeOk))
  }

  function Try(st: State, record: Record, layout: PageLayout, luck: Luck): State {
    match PlanOf(Seen(st.files, luck), record, layout)
    case None => st.(errors := st.errors + [[]])
    case Some(plan) => Tried(st, plan, Rendered(record), luck)
  }

  /** runEmitBatch; `luck` is what its first record meets, its second and so on. */
  function TryAll(st: State, records: seq<Record>, layout: PageLayout, luck: nat -> Luck): State {
    if records == [] then st
    else Try(TryAll(st, records[..|records| - 1], layout, luck), records[|records| - 1], layout, luck(|records| - 1))
  }

  /** confluencePagesIndexPath */
  function IndexPath(): Str { Print(PageFile(None, U("_index"))) }

  // ---------------------------------------------------------------------------
  // The emitter
  // ---------------------------------------------------------------------------

  class Emitter {
    var files: Files
    var index: Table<PageData>
    var written: nat
    var deleted: nat
    var errors: seq<Str>
    const layout: PageLayout

    constructor (files: Files, index: Table<PageData>, layout: PageLayout)
      ensures this.files == files && this.index == index && this.layout == layout
      ensures written == deleted == 0 && errors == []
    {
      this.files, this.index, this.layout := files, index, layout;
      written, deleted, errors := 0, 0, [];
    }

    method PlanPageWrite(page: PageData, reconciler: IndexFileReconciler<PageData>, luck: Luck)
      returns (threw: bool, writes: seq<Str>, deletes: seq<Str>)
      requires reconciler.Valid()
      modifies reconciler
      ensures reconciler.Valid()
      ensures match PlanWrite(Seen(files, luck), page, layout)
        case None => threw && reconciler.actions == old(reconciler.actions)
        case Some(plan) =>
          !threw && writes == plan.writes && deletes == plan.deletes
            && reconciler.actions == old(reconciler.actions) + plan.actions
    {
      threw, writes, deletes := false, [], [];
      var id := ReadString(Some(page.id));
      if id.None? { return; }
      var paths := layout.paths(id.value, NewState(page));
      if paths.None? { return true, [], []; }
      var anchor := layout.anchor(id.value);
      if anchor.None? { return true, [], []; }
      var stale: seq<Str> := [];
      if luck.readOk && anchor.value in files {
        var prior := layout.paths(id.value, PriorState(files[anchor.value]));
        if prior.None? { return true, [], []; }
        stale := DiffPaths(prior.value, paths.value);
      }
      reconciler.QueueUpsert(page.id, page);
      return false, paths.value, stale;
    }

    method PlanPageDelete(id: Str, reconciler: IndexFileReconciler<PageData>, luck: Luck)
      returns (threw: bool, deletes: seq<Str>)
      requires reconciler.Valid()
      modifies reconciler
      ensures reconciler.Valid()
      ensures match PlanDelete(Seen(files, luck), id, layout)
        case None => threw && reconciler.actions == old(reconciler.actions)
        case Some(plan) =>
          !threw && plan.writes == [] && deletes == plan.deletes
            && reconciler.actions == old(reconciler.actions) + plan.actions
    {
      threw, deletes := false, [];
      var anchor := layout.anchor(id);
      if anchor.None? { return true, []; }
      var prior := if luck.readOk && anchor.value in files then PriorState(files[anchor.value]) else BARE;
      var paths := layout.paths(id, prior);
      if paths.None? { return true, []; }
      reconciler.QueueRemove(id);
      return false, paths.value;
    }

    method DeleteEach(deletes: seq<Str>, ok: Str -> bool)
      modifies this`files, this`deleted, this`errors
      ensures files == Without(old(files), Passing(deletes, ok))
      ensures deleted == old(deleted) + |Passing(deletes, ok)|
      ensures errors == old(errors) + Failing(deletes, ok)
    {
      assert files == Without(files, []);
      for i := 0 to |deletes|
        invariant files == Without(old(files), Passing(deletes[..i], ok))
        invariant deleted == old(deleted) + |Passing(deletes[..i], ok)|
        invariant errors == old(errors) + Failing(deletes[..i], ok)
      {
        DeleteStep(old(files), deletes, i, ok);
        if ok(deletes[i]) {
          files := files - {deletes[i]};
          deleted := deleted + 1;
        } else {
          errors := errors + [deletes[i]];
        }
      }
      assert deletes[..|deletes|] == deletes;
    }

    method WriteEach(writes: seq<Str>, content: PageData, ok: Str -> bool)
      modifies this`files, this`written, this`errors
      ensures files == With(old(files), Passing(writes, ok), content)
      ensures written == old(written) + |Passing(writes, ok)|
      ensures errors == old(errors) + Failing(writes, ok)
    {
      assert files == With(files, [], content);
      for i := 0 to |writes|
        invariant files == With(old(files), Passing(writes[..i], ok), content)
        invariant written == old(written) + |Passing(writes[..i], ok)|
        invariant errors == old(errors) + Failing(writes[..i], ok)
      {
        WriteStep(old(files), writes, i, content, ok);
        if ok(writes[i]) {
          files := files[writes[i] := content];
          written := written + 1;
        } else {
          errors := errors + [writes[i]];
        }
      }
      assert writes[..|writes|] == writes;
    }

    /** Plans one record and runs the plan. */
    method EmitRecord(record: Record, reconciler: IndexFileReconciler<PageData>, luck: Luck)
      requires reconciler.Valid()
      modifies this, reconciler
      ensures reconciler.Valid() && index == old(index)
      ensures State(files, reconciler.actions, written, deleted, errors)
        == Try(old(State(files, reconciler.actions, written, deleted, errors)), record, layout, luck)
    {
      var threw, writes, deletes := false, [], [];
      match record {
        case Full(page) => threw, writes, deletes := PlanPageWrite(page, reconciler, luck);
        case Tombstone(id) => threw, deletes := PlanPageDelete(id, reconciler, luck);
      }
      if threw {
        errors := errors + [[]];
      } else {
        DeleteEach(deletes, luck.deleteOk);
        WriteEach(writes, Rendered(record), luck.writeOk);
      }
    }

    method EmitPages(records: seq<Record>, luck: nat -> Luck, indexReadOk: bool, indexWriteOk: bool)
      modifies this
      ensures
        var end := TryAll(State(old(files), [], old(written), old(deleted), old(errors)), records, layout, luck);
        && files == end.files && deleted == end.deleted
        && errors == end.errors + (if end.actions != [] && !indexWriteOk then [IndexPath()] else [])
        && index == Rewritten(old(index), end.actions, indexReadOk, indexWriteOk)
        && written == end.written + if end.actions != [] && indexWriteOk then 1 else 0
    {
      var reconciler := new IndexFileReconciler<PageData>();
      ghost var start := State(files, [], written, deleted, errors);
      for i := 0 to |records|
        invariant reconciler.Valid() && fresh(reconciler) && index == old(index)
        invariant TryAll(start, records[..i], layout, luck)
          == State(files, reconciler.actions, written, deleted, errors)
      {
        assert records[..i + 1][..i] == records[..i];
        EmitRecord(records[i], reconciler, luck(i));
      }
      assert records[..|records|] == records;
      var table, flushed, failed := reconciler.Flush(index, indexReadOk, indexWriteOk);
      index, written := table, written + flushed;
      if failed { errors := errors + [IndexPath()]; }
    }
  }

  lemma WithoutSnoc(files: Files, deletes: seq<Str>, last: Str)
    ensures Without(files, deletes + [last]) == Without(files, deletes) - {last}
  {}

  lemma WithSnoc(files: Files, writes: seq<Str>, last: Str, content: PageData)
    ensures With(files, writes + [last], content) == With(files, writes, content)[last := content]
  {}

  /** How one delete changes the files and the two lists. */
  lemma DeleteStep(files: Files, deletes: seq<Str>, i: nat, ok: Str -> bool)
    requires i < |deletes|
    ensures
      var p, before, after := deletes[i], deletes[..i], deletes[..i + 1];
      && Passing(after, ok) == Passing(before, ok) + (if ok(p) then [p] else [])
      && Failing(after, ok) == Failing(before, ok) + (if ok(p) then [] else [p])
      && Without(files, Passing(after, ok))
         == if ok(p) then Without(files, Passing(before, ok)) - {p} else Without(files, Passing(before, ok))
  {
    ConfluenceAdapter.FilterStep(deletes, i, ok);
    ConfluenceAdapter.FilterStep(deletes, i, ConfluenceAdapter.Not(ok));
    if ok(deletes[i]) { WithoutSnoc(files, Passing(deletes[..i], ok), deletes[i]); }
  }

  /** How one write changes the files and the two lists. */
  lemma WriteStep(files: Files, writes: seq<Str>, i: nat, content: PageData, ok: Str -> bool)
    requires i < |writes|
    ensures
      var p, before, after := writes[i], writes[..i], writes[..i + 1];
      && Passing(after, ok) == Passing(before, ok) + (if ok(p) then [p] else [])
      && Failing(after, ok) == Failing(before, ok) + (if ok(p) then [] else [p])
      && With(files, Passing(after, ok), content)
         == var kept := With(files, Passing(before, ok), content); if ok(p) then kept[p := content] else kept
  {
    ConfluenceAdapter.FilterStep(writes, i, ok);
    ConfluenceAdapter.FilterStep(writes, i, ConfluenceAdapter.Not(ok));
    WithMore(files, Passing(writes[..i], ok), writes[i], content, ok(writes[i]));
  }

  lemma WithMore(files: Files, writes: seq<Str>, last: Str, content: PageData, more: bool)
    ensures With(files, writes + (if more then [last] else []), content)
      == var kept := With(files, writes, content); if more then kept[last := content] else kept
  {
    if more { WithSnoc(files, writes, last, content); } else { assert writes + [] == writes; }
  }
}
