/**
 * The Confluence batch emitter when calls fail: every planned call is counted or reported, exactly
 * when trying a record again repairs what a failed try left, and what a blind index flush forgets
 * (packages/core/src/emit-auxiliary/index.ts:198-251, 332-376 and
 * packages/confluence/src/emit-auxiliary-files.ts:182-281).
 */
module ConfluenceBatchFailures {
  import opened Wrappers
  import opened JsStrings
  import opened AliasStore
  import opened IndexFiles
  import opened ConfluenceBatch
  import opened ConfluenceBatchRuns
  import ConfluenceRuns

  ghost predicate Calm(luck: Luck) { luck.readOk && forall p :: luck.deleteOk(p) && luck.writeOk(p) }

  lemma {:induction false} FilterAll(paths: seq<Str>, ok: Str -> bool)
    requires forall p :: ok(p)
    ensures Passing(paths, ok) == paths
      && Failing(paths, ok) == []
  {
    if paths == [] {
    } else {
      FilterAll(paths[..|paths| - 1], ok);
    }
  }

  lemma CalmStep(st: State, record: Record, layout: PageLayout, luck: Luck)
    requires Calm(luck)
    ensures Try(st, record, layout, luck) == Step(st, record, layout)
  {
    var plan := PlanOf(st.files, record, layout);
    if plan.Some? {
      FilterAll(plan.value.deletes, luck.deleteOk);
      FilterAll(plan.value.writes, luck.writeOk);
      assert st.errors + [] + [] == st.errors;
    }
  }

  /** Without failures the batch is the failure-free one. */
  lemma {:induction false} CalmBatch(st: State, records: seq<Record>, layout: PageLayout, luck: nat -> Luck)
    requires forall i :: 0 <= i < |records| ==> Calm(luck(i))
    ensures TryAll(st, records, layout, luck) == Batch(st, records, layout)
  {
    if records == [] {
    } else {
      var front := records[..|records| - 1];
      CalmBatch(st, front, layout, luck);
      CalmStep(Batch(st, front, layout), records[|records| - 1], layout, luck(|records| - 1));
    }
  }

  // ---------------------------------------------------------------------------
  // Every call is accounted for
  // ---------------------------------------------------------------------------

  /** How many writes and deletes one record's plan asks for; a plan that throws is one error. */
  function Planned(st: State, record: Record, layout: PageLayout, luck: Luck): nat {
    match PlanOf(Seen(st.files, luck), record, layout)
    case None => 1
    case Some(plan) => |plan.deletes| + |plan.writes|
  }

  function PlannedAll(st: State, records: seq<Record>, layout: PageLayout, luck: nat -> Luck): nat {
    if records == [] then 0
    else
      var front := records[..|records| - 1];
      PlannedAll(st, front, layout, luck)
      + Planned(TryAll(st, front, layout, luck), records[|records| - 1], layout, luck(|records| - 1))
  }

  /** Whatever fails, every planned call is either counted or reported as one error. */
  lemma {:induction false} EveryCallAccounted(st: State, records: seq<Record>, layout: PageLayout, luck: nat -> Luck)
    ensures
      var end := TryAll(st, records, layout, luck);
      end.written + end.deleted + |end.errors|
        == st.written + st.deleted + |st.errors| + PlannedAll(st, records, layout, luck)
  {
    if records == [] {
    } else {
      var front, last := records[..|records| - 1], records[|records| - 1];
      EveryCallAccounted(st, front, layout, luck);
      var mid, now := TryAll(st, front, layout, luck), luck(|records| - 1);
      var plan := PlanOf(Seen(mid.files, now), last, layout);
      if plan.Some? {
        ConfluenceRuns.FilterSplits(plan.value.deletes, now.deleteOk);
        ConfluenceRuns.FilterSplits(plan.value.writes, now.writeOk);
      }
    }
  }

  /** Each path's fate is that of its own calls: deleted, then written, or as it was. */
  lemma TriedAt(st: State, plan: Plan, content: PageData, luck: Luck, p: Str)
    ensures
      var after := Tried(st, plan, content, luck).files;
      if p in plan.writes && luck.writeOk(p) then p in after && after[p] == content
      else
        (p in after <==> p in st.files && !(p in plan.deletes && luck.deleteOk(p)))
          && (p in after ==> after[p] == st.files[p])
  {
    ConfluenceRuns.FilterMembers(plan.deletes, luck.deleteOk);
    ConfluenceRuns.FilterMembers(plan.writes, luck.writeOk);
  }

  // ---------------------------------------------------------------------------
  // Trying a page again
  // ---------------------------------------------------------------------------

  /** The stored page has the path and the new one has not. */
  predicate Stale(live: Live, page: PageData, layout: PageLayout, p: Str) {
    page.id in live && Has(live[page.id], p, SchemeOf(layout)) && !Has(page, p, SchemeOf(layout))
  }

  lemma FirstPlan(files: Files, live: Live, page: PageData, layout: PageLayout, luck: Luck) returns (plan: Plan)
    requires World(files, live, layout) && GoodRecord(live, Full(page), layout) && Prints(page, layout)
    ensures PlanWrite(Seen(files, luck), page, layout) == Some(plan)
    ensures forall p :: p in plan.writes <==> Has(page, p, SchemeOf(layout))
    ensures forall p :: p in plan.deletes <==> luck.readOk && Stale(live, page, layout, p)
  {
    WritePlan(files, live, page, layout);
    plan := PlanWrite(Seen(files, luck), page, layout).value;
  }

  /** What a first try leaves at a path. */
  ghost predicate OnceAt(files: Files, once: Files, live: Live, page: PageData, layout: PageLayout, luck: Luck, p: Str)
  {
    if Has(page, p, SchemeOf(layout)) && luck.writeOk(p) then p in once && once[p] == page
    else
      && (p in once <==> p in files && !(luck.readOk && luck.deleteOk(p) && Stale(live, page, layout, p)))
      && (p in once ==> once[p] == files[p])
  }

  lemma FirstTry(st: State, live: Live, page: PageData, layout: PageLayout, luck: Luck, p: Str)
    requires World(st.files, live, layout) && GoodRecord(live, Full(page), layout) && Prints(page, layout)
    ensures OnceAt(st.files, Try(st, Full(page), layout, luck).files, live, page, layout, luck, p)
  {
    var plan := FirstPlan(st.files, live, page, layout, luck);
    TriedAt(st, plan, page, luck, p);
  }

  /** Once the by-id file was written, the next plan has nothing to delete; else it is the plan of the first try. */
  lemma SecondPlan(files: Files, once: Files, live: Live, page: PageData, layout: PageLayout, luck: Luck)
    returns (plan: Plan)
    requires World(files, live, layout) && GoodRecord(live, Full(page), layout) && Prints(page, layout)
    requires layout.anchor(page.id).Some? && OnceAt(files, once, live, page, layout, luck, layout.anchor(page.id).value)
    ensures PlanWrite(once, page, layout) == Some(plan)
    ensures forall p :: p in plan.writes <==> Has(page, p, SchemeOf(layout))
    ensures forall p ::
      p in plan.deletes <==> !luck.writeOk(layout.anchor(page.id).value) && Stale(live, page, layout, p)
  {
    var anchor, scheme := layout.anchor(page.id).value, SchemeOf(layout);
    DisjointOwn(live, page, scheme);
    assert Has(page, anchor, scheme);
    AnchorHolds(files, live, page.id, layout);
    if luck.writeOk(anchor) {
      assert layout.paths(page.id, PriorState(page)) == scheme.targets(page);
      OutdatedMembers(scheme.targets(page).value, scheme.targets(page).value);
    } else if page.id in live {
      var prior := live[page.id];
      assert scheme.key(prior) == page.id && Camel(prior);
      assert layout.paths(page.id, PriorState(prior)) == scheme.targets(prior);
      OutdatedMembers(scheme.targets(prior).value, scheme.targets(page).value);
    }
    plan := PlanWrite(once, page, layout).value;
  }

  /** What a try with failures, and then one without, leave at a path. */
  ghost predicate TwiceAt(files: Files, twice: Files, live: Live, page: PageData, layout: PageLayout, luck: Luck,
                          p: Str)
    requires layout.anchor(page.id).Some?
  {
    if Has(page, p, SchemeOf(layout)) then p in twice && twice[p] == page
    else
      && (p in twice <==> p in files && !(Stale(live, page, layout, p) && !Forgotten(page, layout, luck, p)))
      && (p in twice ==> twice[p] == files[p])
  }

  /** The by-id file was written although a stale path was left. */
  predicate Forgotten(page: PageData, layout: PageLayout, luck: Luck, p: Str)
    requires layout.anchor(page.id).Some?
  {
    luck.writeOk(layout.anchor(page.id).value) && !(luck.readOk && luck.deleteOk(p))
  }

  lemma SecondTry(st: State, live: Live, page: PageData, layout: PageLayout, luck: Luck, p: Str)
    requires World(st.files, live, layout) && GoodRecord(live, Full(page), layout) && Prints(page, layout)
    ensures layout.anchor(page.id).Some?
    ensures
      var once := Try(st, Full(page), layout, luck);
      TwiceAt(st.files, Step(once, Full(page), layout).files, live, page, layout, luck, p)
  {
    var once, anchor := Try(st, Full(page), layout, luck), layout.anchor(page.id).value;
    FirstTry(st, live, page, layout, luck, p);
    FirstTry(st, live, page, layout, luck, anchor);
    var plan := SecondPlan(st.files, once.files, live, page, layout, luck);
    AppliedAt(once.files, plan, page, p);
  }

  /** Nothing is left that no later try would find. */
  ghost predicate Repairable(live: Live, page: PageData, layout: PageLayout, luck: Luck) {
    layout.anchor(page.id).Some? && forall p :: Stale(live, page, layout, p) ==> !Forgotten(page, layout, luck, p)
  }

  lemma TwiceReplaces(files: Files, twice: Files, live: Live, page: PageData, layout: PageLayout, luck: Luck)
    requires layout.anchor(page.id).Some? && forall p :: TwiceAt(files, twice, live, page, layout, luck, p)
    requires SchemeOf(layout).key(page) == page.id && Repairable(live, page, layout, luck)
    ensures Replaces(files, twice, live, page, SchemeOf(layout))
  {
    var scheme := SchemeOf(layout);
    forall p
      ensures Has(page, p, scheme) ==> p in twice && twice[p] == page
      ensures !Has(page, p, scheme) ==>
        (p in twice <==> p in files && !(page.id in live && Has(live[page.id], p, scheme)))
        && (p in twice ==> twice[p] == files[p])
    {
      assert TwiceAt(files, twice, live, page, layout, luck, p);
    }
  }

  lemma TwiceLeaves(files: Files, twice: Files, live: Live, page: PageData, layout: PageLayout, luck: Luck, p: Str)
    requires World(files, live, layout) && layout.anchor(page.id).Some?
    requires TwiceAt(files, twice, live, page, layout, luck, p)
    requires Stale(live, page, layout, p) && Forgotten(page, layout, luck, p)
    ensures !World(twice, live[page.id := page], layout)
  {
    assert p in files && p in twice;
    Orphan(files, live, SchemeOf(layout), p, page.id, live[page.id := page]);
  }

  lemma TwiceMirrors(files: Files, twice: Files, live: Live, page: PageData, layout: PageLayout, luck: Luck)
    requires World(files, live, layout) && GoodRecord(live, Full(page), layout) && Prints(page, layout)
    requires layout.anchor(page.id).Some? && forall p :: TwiceAt(files, twice, live, page, layout, luck, p)
    ensures World(twice, live[page.id := page], layout) <==> Repairable(live, page, layout, luck)
  {
    if Repairable(live, page, layout, luck) {
      TwiceReplaces(files, twice, live, page, layout, luck);
      DisjointOwn(live, page, SchemeOf(layout));
      ReplaceMirrors(files, twice, live, page, SchemeOf(layout), live[page.id := page]);
    } else {
      var p :| Stale(live, page, layout, p) && Forgotten(page, layout, luck, p);
      TwiceLeaves(files, twice, live, page, layout, luck, p);
    }
  }

  /**
   * Emitting a page again, this time without failures, repairs a failed try exactly when that try
   * did not write the by-id file, or read the stored page and deleted every path it had to give up.
   */
  lemma PageRetryRepairs(st: State, live: Live, page: PageData, layout: PageLayout, luck: Luck)
    requires World(st.files, live, layout) && GoodRecord(live, Full(page), layout) && Prints(page, layout)
    ensures
      var once := Try(st, Full(page), layout, luck);
      World(Step(once, Full(page), layout).files, live[page.id := page], layout)
      <==> Repairable(live, page, layout, luck)
  {
    var once := Try(st, Full(page), layout, luck);
    var twice := Step(once, Full(page), layout).files;
    SecondTry(st, live, page, layout, luck, page.id);
    forall p ensures TwiceAt(st.files, twice, live, page, layout, luck, p) {
      SecondTry(st, live, page, layout, luck, p);
    }
    TwiceMirrors(st.files, twice, live, page, layout, luck);
  }

  // ---------------------------------------------------------------------------
  // Trying a tombstone again
  // ---------------------------------------------------------------------------

  /** Every path that the first try left is one of a page without fields, unless the by-id file is left too. */
  ghost predicate Deletable(live: Live, id: Str, layout: PageLayout, luck: Luck)
    requires layout.anchor(id).Some?
  {
    luck.deleteOk(layout.anchor(id).value) && id in live ==>
      forall p :: Has(live[id], p, SchemeOf(layout)) ==> p in BarePaths(id, layout) || (luck.readOk && luck.deleteOk(p))
  }

  /** What a try of the tombstone asks to delete. */
  function Doomed(live: Live, id: Str, layout: PageLayout, seen: bool): seq<Str> {
    if seen && id in live && layout.paths(Trim(live[id].id), NewState(live[id])).Some?
    then layout.paths(Trim(live[id].id), NewState(live[id])).value
    else BarePaths(id, layout)
  }

  lemma TombstonePlan(files: Files, live: Live, id: Str, layout: PageLayout, luck: Luck)
    requires World(files, live, layout) && GoodRecord(live, Tombstone(id), layout) && layout.anchor(id).Some?
    ensures PlanDelete(Seen(files, luck), id, layout)
      == Some(Plan([], Doomed(live, id, layout, luck.readOk), [Remove(id)]))
  {
    DeletePlan(files, live, id, layout);
  }

  lemma BareAnchor(live: Live, id: Str, layout: PageLayout, seen: bool)
    requires GoodPages(layout) && layout.anchor(id).Some? && LiveKeys(live, SchemeOf(layout))
    ensures layout.anchor(id).value in Doomed(live, id, layout, seen)
    ensures id in live ==> Doomed(live, id, layout, true) == SchemeOf(layout).targets(live[id]).value
  {
    if id in live { assert SchemeOf(layout).key(live[id]) == id; }
  }

  lemma SecondTombstone(files: Files, once: Files, live: Live, id: Str, layout: PageLayout, luck: Luck)
    requires World(files, live, layout) && GoodRecord(live, Tombstone(id), layout) && layout.anchor(id).Some?
    requires
      var anchor := layout.anchor(id).value;
      (anchor in once <==> anchor in files && !luck.deleteOk(anchor))
        && (anchor in once ==> once[anchor] == files[anchor])
    ensures PlanDelete(once, id, layout)
      == Some(Plan([], Doomed(live, id, layout, !luck.deleteOk(layout.anchor(id).value)), [Remove(id)]))
  {
    var anchor := layout.anchor(id).value;
    BareAnchor(live, id, layout, false);
    AnchorHolds(files, live, id, layout);
    if id in live { assert SchemeOf(layout).key(live[id]) == id && Camel(live[id]); }
  }

  lemma SparesBoth(files: Files, live: Live, id: Str, layout: PageLayout, seen: bool)
    requires World(files, live, layout) && GoodRecord(live, Tombstone(id), layout) && layout.anchor(id).Some?
    ensures Spares(live, id, Doomed(live, id, layout, seen), SchemeOf(layout))
  {
    if seen && id in live {
      BareAnchor(live, id, layout, true);
      SparesOwn(files, live, id, SchemeOf(layout));
    }
  }

  /** What two tries delete, the first with failures and the second without. */
  function Gone(live: Live, id: Str, layout: PageLayout, luck: Luck): seq<Str>
    requires layout.anchor(id).Some?
  {
    Passing(Doomed(live, id, layout, luck.readOk), luck.deleteOk)
    + Doomed(live, id, layout, !luck.deleteOk(layout.anchor(id).value))
  }

  lemma TwoTombstones(st: State, live: Live, id: Str, layout: PageLayout, luck: Luck)
    requires World(st.files, live, layout) && GoodRecord(live, Tombstone(id), layout) && layout.anchor(id).Some?
    ensures
      var once := Try(st, Tombstone(id), layout, luck);
      Deletes(st.files, Step(once, Tombstone(id), layout).files, Gone(live, id, layout, luck))
  {
    var once, anchor, content := Try(st, Tombstone(id), layout, luck), layout.anchor(id).value, Rendered(Tombstone(id));
    var seen, again := Doomed(live, id, layout, luck.readOk), Doomed(live, id, layout, !luck.deleteOk(anchor));
    TombstonePlan(st.files, live, id, layout, luck);
    BareAnchor(live, id, layout, luck.readOk);
    TriedAt(st, Plan([], seen, [Remove(id)]), content, luck, anchor);
    SecondTombstone(st.files, once.files, live, id, layout, luck);
    ConfluenceRuns.FilterMembers(seen, luck.deleteOk);
    forall p
      ensures
        var twice := Applied(once.files, Plan([], again, [Remove(id)]), content);
        (p in twice <==> p in st.files && p !in Gone(live, id, layout, luck))
          && (p in twice ==> twice[p] == st.files[p])
    {
      TriedAt(st, Plan([], seen, [Remove(id)]), content, luck, p);
      AppliedAt(once.files, Plan([], again, [Remove(id)]), content, p);
    }
  }

  lemma GoneCovers(live: Live, id: Str, layout: PageLayout, luck: Luck)
    requires GoodPages(layout) && layout.anchor(id).Some? && LiveKeys(live, SchemeOf(layout))
    ensures Covers(live, id, Gone(live, id, layout, luck), SchemeOf(layout)) <==> Deletable(live, id, layout, luck)
  {
    ConfluenceRuns.FilterMembers(Doomed(live, id, layout, luck.readOk), luck.deleteOk);
    BareAnchor(live, id, layout, true);
  }

  /**
   * Repeating a tombstone without failures completes a failed try exactly when that try left the
   * by-id file, or whatever else it left is a path of a page without fields.
   */
  lemma TombstoneRetryCompletes(st: State, live: Live, id: Str, layout: PageLayout, luck: Luck)
    requires World(st.files, live, layout) && GoodRecord(live, Tombstone(id), layout) && layout.anchor(id).Some?
    ensures
      var once := Try(st, Tombstone(id), layout, luck);
      World(Step(once, Tombstone(id), layout).files, live - {id}, layout) <==> Deletable(live, id, layout, luck)
  {
    var twice, gone := Step(Try(st, Tombstone(id), layout, luck), Tombstone(id), layout).files,
      Gone(live, id, layout, luck);
    TwoTombstones(st, live, id, layout, luck);
    ConfluenceRuns.FilterMembers(Doomed(live, id, layout, luck.readOk), luck.deleteOk);
    SparesBoth(st.files, live, id, layout, luck.readOk);
    SparesBoth(st.files, live, id, layout, !luck.deleteOk(layout.anchor(id).value));
    DeleteMirrors(st.files, twice, live, id, gone, SchemeOf(layout), live - {id});
    GoneCovers(live, id, layout, luck);
  }

  // ---------------------------------------------------------------------------
  // A blind index flush
  // ---------------------------------------------------------------------------

  /**
   * A settled batch whose index read failed leaves the index listing the live pages exactly when it
   * wrote or removed every page that was live before.
   */
  lemma BlindFlushForgets(files: Files, live: Live, records: seq<Record>, layout: PageLayout)
    requires World(files, live, layout) && GoodBatch(live, records, layout)
    requires Settled(Queue(records, layout)) && Queue(records, layout) != []
    ensures Rewritten(live, Queue(records, layout), false, true) == LiveBatch(live, records, layout)
      <==> forall id :: id in live ==> id in Upserts(Queue(records, layout)) || id in Removes(Queue(records, layout))
  {
    BatchMirrors(State(files, [], 0, 0, []), live, records, layout);
    FlushIsInOrder(live, Queue(records, layout));
    FailedReadForgets(live, Queue(records, layout));
  }
}
