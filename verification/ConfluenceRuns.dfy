/**
 * Properties of Confluence ingestion: every path accounted for under failure, the store equal to
 * the latest renderings after every run, and exactly when deletes and retries leave nothing behind.
 */
module ConfluenceRuns {
  import opened Wrappers
  import opened JsStrings
  import opened StatusSlugs
  import opened ConfluencePaths
  import opened ConfluenceAdapter
  import opened AliasStore

  // ---------------------------------------------------------------------------
  // Accounting under any pattern of failures
  // ---------------------------------------------------------------------------

  lemma {:induction false} FilterMembers(paths: seq<Str>, keep: Str -> bool)
    ensures forall p :: p in Filter(paths, keep) <==> p in paths && keep(p)
  {
    if paths == [] {
    } else {
      FilterMembers(paths[..|paths| - 1], keep);
      assert paths == paths[..|paths| - 1] + [paths[|paths| - 1]];
    }
  }

  lemma {:induction false} FilterSplits(paths: seq<Str>, keep: Str -> bool)
    ensures multiset(Filter(paths, keep)) + multiset(Filter(paths, Not(keep))) == multiset(paths)
    ensures |Filter(paths, keep)| + |Filter(paths, Not(keep))| == |paths|
  {
    if paths == [] {
    } else {
      var front, last := paths[..|paths| - 1], paths[|paths| - 1];
      FilterSplits(front, keep);
      assert paths == front + [last];
      var kept, dropped := Filter(front, keep), Filter(front, Not(keep));
      if keep(last) {
        assert Filter(paths, keep) == kept + [last] && Filter(paths, Not(keep)) == dropped + [] == dropped;
      } else {
        assert Filter(paths, keep) == kept + [] == kept && Filter(paths, Not(keep)) == dropped + [last];
      }
    }
  }

  lemma {:induction false} FilterCounts(paths: seq<Str>, a: Str -> bool, b: Str -> bool)
    ensures |Filter(paths, And(a, b))| + |Filter(paths, And(a, Not(b)))| == |Filter(paths, a)|
  {
    if paths == [] {
    } else {
      FilterCounts(paths[..|paths| - 1], a, b);
    }
  }

  function Stale(files: Files, event: Event, client: Client, layout: Layout): seq<Str> {
    match TargetsOf(event, layout)
    case None => []
    case Some(targets) =>
      match StalePaths(files, event, targets, client, layout) case None => [] case Some(stale) => stale
  }

  /** Stale paths are distinct and never among the paths being written. */
  lemma StaleApart(files: Files, event: Event, client: Client, layout: Layout)
    requires TargetsOf(event, layout).Some?
    ensures Distinct(Stale(files, event, client, layout))
    ensures forall p :: p in Stale(files, event, client, layout) ==> p !in TargetsOf(event, layout).value
  {
    var targets := TargetsOf(event, layout).value;
    if client.hasRead && layout.anchor(event.kind, event.objectId).Some? {
      var anchor := layout.anchor(event.kind, event.objectId).value;
      if anchor in files && files[anchor].Wrapper?
        && layout.targets(event.kind, event.objectId, files[anchor].payload).Some?
      {
        OutdatedMembers(layout.targets(event.kind, event.objectId, files[anchor].payload).value, targets);
      }
    }
  }

  /** The paths an event means to touch: its targets, and the stale ones unless it deletes. */
  function Addressed(files: Files, event: Event, client: Client, layout: Layout, lower: Str -> Str): seq<Str> {
    match TargetsOf(event, layout)
    case None => []
    case Some(targets) => (if IsDelete(event, lower) then [] else Stale(files, event, client, layout)) + targets
  }

  predicate ExactlyOnce(result: Result, p: Str) {
    multiset(result.paths)[p] + multiset(result.errors)[p] == 1
  }

  predicate Balanced(result: Result) {
    result.written + result.updated + result.deleted == |result.paths|
  }

  lemma {:induction false} DistinctCount(paths: seq<Str>)
    requires Distinct(paths)
    ensures forall p :: p in paths ==> multiset(paths)[p] == 1
  {
    if paths == [] {
    } else {
      var front, last := paths[..|paths| - 1], paths[|paths| - 1];
      DistinctCount(front);
      assert paths == front + [last];
      assert last !in front;
    }
  }

  lemma AddressedDistinct(files: Files, event: Event, client: Client, layout: Layout, lower: Str -> Str)
    requires GoodLayout(layout)
    ensures Distinct(Addressed(files, event, client, layout, lower))
  {
    if TargetsOf(event, layout).Some? {
      StaleApart(files, event, client, layout);
      var targets, stale := TargetsOf(event, layout).value, Stale(files, event, client, layout);
      assert Distinct(targets);
      var both: seq<Str> := stale + targets;
      forall i, j | 0 <= i < j < |both| ensures both[i] != both[j] {
        if i < |stale| <= j { assert stale[i] in stale && targets[j - |stale|] in targets; }
      }
    }
  }

  lemma WriteAccounts(targets: seq<Str>, stale: seq<Str>, client: Client)
    ensures
      var result := WriteResult(targets, stale, client);
      && Balanced(result)
      && multiset(result.paths) + multiset(result.errors)
         == (if client.hasDelete then multiset(stale) else multiset{}) + multiset(targets)
  {
    FilterSplits(if client.hasDelete then stale else [], client.deleteOk);
    FilterSplits(targets, client.writeOk);
    FilterCounts(targets, client.writeOk, client.updates);
  }

  lemma DeleteAccounts(targets: seq<Str>, client: Client)
    ensures
      var result := DeleteResult(targets, client);
      && (client.hasDelete ==>
          Balanced(result) && multiset(result.paths) + multiset(result.errors) == multiset(targets))
      && (!client.hasDelete ==> result.paths == result.errors == targets)
  {
    FilterSplits(targets, client.deleteOk);
  }

  ghost predicate Accounted(result: Result, addressed: seq<Str>) {
    Balanced(result) && forall p :: p in addressed ==> ExactlyOnce(result, p)
  }

  lemma WriteAccounted(targets: seq<Str>, stale: seq<Str>, client: Client)
    requires Distinct(stale + targets)
    ensures Accounted(WriteResult(targets, stale, client), stale + targets) <==> client.hasDelete || stale == []
  {
    var result := WriteResult(targets, stale, client);
    WriteAccounts(targets, stale, client);
    DistinctCount(stale + targets);
    assert multiset(stale + targets) == multiset(stale) + multiset(targets);
    if stale == [] {
      assert multiset(stale) == multiset{};
    } else if !client.hasDelete {
      assert stale[0] in stale + targets && multiset(stale)[stale[0]] >= 1;
      assert multiset(targets)[stale[0]] == 0;
      assert (multiset(result.paths) + multiset(result.errors))[stale[0]] == 0;
      assert !ExactlyOnce(result, stale[0]);
    }
  }

  lemma DeleteAccounted(targets: seq<Str>, client: Client)
    requires Distinct(targets) && targets != []
    ensures Accounted(DeleteResult(targets, client), targets) <==> client.hasDelete
  {
    DeleteAccounts(targets, client);
    DistinctCount(targets);
    assert targets[0] in targets;
  }

  /**
   * Whatever calls fail, every path an event addresses ends in exactly one of `paths` and
   * `errors`, and the counts add up to the successes, exactly when the client can delete or the
   * event has nothing to delete. Without deleteFile a delete event reports each path in both
   * lists, and a write event reports its stale paths in neither.
   */
  lemma EveryPathAccounted(files: Files, event: Event, client: Client, layout: Layout, lower: Str -> Str)
    requires GoodLayout(layout) && TargetsOf(event, layout).Some? && Ingest(files, event, client, layout, lower).Done?
    ensures
      var result := Ingest(files, event, client, layout, lower).result;
      Accounted(result, Addressed(files, event, client, layout, lower))
      <==> client.hasDelete || (!IsDelete(event, lower) && Stale(files, event, client, layout) == [])
  {
    var targets, stale := TargetsOf(event, layout).value, Stale(files, event, client, layout);
    AddressedDistinct(files, event, client, layout, lower);
    if IsDelete(event, lower) {
      assert [] + targets == targets;
      assert layout.anchor(event.kind, event.objectId).value in targets;
      DeleteAccounted(targets, client);
    } else {
      WriteAccounted(targets, stale, client);
    }
  }

  /** What any pattern of failures does to the files: each path is decided by its own call. */
  lemma EachPathByItsOwnCall(files: Files, event: Event, client: Client, layout: Layout, lower: Str -> Str, p: Str)
    requires TargetsOf(event, layout).Some? && Ingest(files, event, client, layout, lower).Done?
    ensures
      var targets, stale := TargetsOf(event, layout).value, Stale(files, event, client, layout);
      var after := Ingest(files, event, client, layout, lower).files;
      var gone := client.hasDelete && client.deleteOk(p) && p in if IsDelete(event, lower) then targets else stale;
      if p in targets && !IsDelete(event, lower) && client.writeOk(p) then p in after && after[p] == Rendering(event)
      else (p in after <==> p in files && !gone) && (p in after ==> after[p] == files[p])
  {
    StaleApart(files, event, client, layout);
  }

  // ---------------------------------------------------------------------------
  // Runs
  // ---------------------------------------------------------------------------

  type Key = (Kind, Str)

  /** The latest rendering of each record. */
  type Live = map<Key, Content>

  function KeyOf(event: Event): Key { (event.kind, Trim(event.objectId)) }

  /** A rendering belongs to its kind and trimmed id, and lies at the paths of its payload. */
  function SchemeOf(layout: Layout): Scheme<Content, Key> {
    Scheme((c: Content) => match c case Wrapper(kind, id, _) => (kind, Trim(id)) case Other => (Page, []),
           (c: Content) => match c case Wrapper(kind, id, payload) => layout.targets(kind, id, payload)
                           case Other => None)
  }

  ghost predicate Fair(client: Client) {
    client.hasRead && client.hasDelete && forall p :: client.readOk(p) && client.deleteOk(p) && client.writeOk(p)
  }

  /** The store mirrors the live records of a good layout. */
  ghost predicate World(files: Files, live: Live, layout: Layout) {
    GoodLayout(layout) && Mirrors(files, live, SchemeOf(layout))
  }

  /** The event's paths stay apart from those of every other live record. */
  ghost predicate Apart(live: Live, event: Event, layout: Layout) {
    Disjoint(live[KeyOf(event) := Rendering(event)], SchemeOf(layout))
  }

  predicate Targets(event: Event, p: Str, layout: Layout) { Has(Rendering(event), p, SchemeOf(layout)) }

  /** The record the event replaces had the path. */
  predicate Had(live: Live, event: Event, p: Str, layout: Layout) {
    KeyOf(event) in live && Has(live[KeyOf(event)], p, SchemeOf(layout))
  }

  /** What the by-id file of a record holds. */
  lemma AnchorHolds(files: Files, live: Live, event: Event, layout: Layout)
    requires World(files, live, layout) && TargetsOf(event, layout).Some? && Apart(live, event, layout)
    ensures
      var anchor, k := layout.anchor(event.kind, event.objectId), KeyOf(event);
      && anchor.Some? && (anchor.value in files <==> k in live)
      && (k in live ==> live[k].Wrapper? && files[anchor.value] == live[k])
      && (k in live ==>
          layout.targets(event.kind, event.objectId, live[k].payload) == SchemeOf(layout).targets(live[k]))
  {
    var anchor, k, scheme := layout.anchor(event.kind, event.objectId), KeyOf(event), SchemeOf(layout);
    assert anchor.Some? && Has(Rendering(event), anchor.value, scheme);
    if k in live {
      assert scheme.key(live[k]) == k && scheme.targets(live[k]).Some?;
      assert layout.anchor(live[k].kind, live[k].objectId) == anchor;
      assert Has(live[k], anchor.value, scheme);
    }
    DisjointOwn(live, Rendering(event), scheme);
  }

  /** The stale paths of a write: what the record had and no longer has. */
  lemma StaleOf(files: Files, live: Live, event: Event, client: Client, layout: Layout)
    requires World(files, live, layout) && TargetsOf(event, layout).Some? && Apart(live, event, layout)
      && client.hasRead
    ensures StalePaths(files, event, TargetsOf(event, layout).value, client, layout).Some?
    ensures layout.anchor(event.kind, event.objectId).Some?
    ensures client.readOk(layout.anchor(event.kind, event.objectId).value) ==>
      forall p :: p in Stale(files, event, client, layout)
        <==> Had(live, event, p, layout) && !Targets(event, p, layout)
    ensures !client.readOk(layout.anchor(event.kind, event.objectId).value) ==>
      Stale(files, event, client, layout) == []
  {
    AnchorHolds(files, live, event, layout);
    if KeyOf(event) in live {
      OutdatedMembers(SchemeOf(layout).targets(live[KeyOf(event)]).value, TargetsOf(event, layout).value);
    }
  }

  lemma WriteReplaces(files: Files, live: Live, event: Event, client: Client, layout: Layout, lower: Str -> Str)
    requires World(files, live, layout) && Fair(client) && !IsDelete(event, lower)
    requires TargetsOf(event, layout).Some? && Apart(live, event, layout)
    ensures
      var outcome := Ingest(files, event, client, layout, lower);
      outcome.Done? && Replaces(files, outcome.files, live, Rendering(event), SchemeOf(layout))
  {
    StaleOf(files, live, event, client, layout);
    var after := Ingest(files, event, client, layout, lower).files;
    forall p
      ensures Targets(event, p, layout) ==> p in after && after[p] == Rendering(event)
      ensures !Targets(event, p, layout) ==>
        (p in after <==> p in files && !Had(live, event, p, layout)) && (p in after ==> after[p] == files[p])
    {
      EachPathByItsOwnCall(files, event, client, layout, lower, p);
    }
  }

  /** One write event without failures keeps the store equal to the latest renderings. */
  lemma WriteMirrors(files: Files, live: Live, event: Event, client: Client, layout: Layout, lower: Str -> Str)
    requires World(files, live, layout) && Fair(client) && !IsDelete(event, lower)
    requires TargetsOf(event, layout).Some? && Apart(live, event, layout)
    ensures
      var outcome := Ingest(files, event, client, layout, lower);
      outcome.Done? && World(outcome.files, live[KeyOf(event) := Rendering(event)], layout)
  {
    WriteReplaces(files, live, event, client, layout, lower);
    DisjointOwn(live, Rendering(event), SchemeOf(layout));
    ReplaceMirrors(files, Ingest(files, event, client, layout, lower).files, live, Rendering(event), SchemeOf(layout),
                   live[KeyOf(event) := Rendering(event)]);
  }

  // ---------------------------------------------------------------------------
  // Deletes
  // ---------------------------------------------------------------------------

  lemma DeleteEffect(files: Files, event: Event, client: Client, layout: Layout, lower: Str -> Str)
    requires Fair(client) && IsDelete(event, lower) && TargetsOf(event, layout).Some?
    ensures Deletes(files, Ingest(files, event, client, layout, lower).files, TargetsOf(event, layout).value)
  {}

  /** The delete event's own payload names every path its record has. */
  ghost predicate NamesEveryPath(live: Live, event: Event, layout: Layout) {
    forall p :: Had(live, event, p, layout) ==> Targets(event, p, layout)
  }

  /**
   * A delete event without failures removes its record, and nothing else, exactly when its own
   * payload names every path the record has.
   */
  lemma DeleteRemovesRecord(files: Files, live: Live, event: Event, client: Client, layout: Layout, lower: Str -> Str)
    requires World(files, live, layout) && Fair(client) && IsDelete(event, lower)
    requires TargetsOf(event, layout).Some? && Apart(live, event, layout)
    ensures World(Ingest(files, event, client, layout, lower).files, live - {KeyOf(event)}, layout)
      <==> NamesEveryPath(live, event, layout)
  {
    var gone := TargetsOf(event, layout).value;
    DeleteEffect(files, event, client, layout, lower);
    DisjointOwn(live, Rendering(event), SchemeOf(layout));
    assert forall p :: p in gone <==> Targets(event, p, layout);
    DeleteMirrors(files, Ingest(files, event, client, layout, lower).files, live, KeyOf(event), gone, SchemeOf(layout),
                  live - {KeyOf(event)});
  }

  // ---------------------------------------------------------------------------
  // Whole runs
  // ---------------------------------------------------------------------------

  function Run(files: Files, events: seq<Event>, client: Client, layout: Layout, lower: Str -> Str): Files {
    if events == [] then files
    else Ingest(Run(files, events[..|events| - 1], client, layout, lower), events[|events| - 1], client, layout,
                lower).files
  }

  function Next(live: Live, event: Event, layout: Layout, lower: Str -> Str): Live {
    if TargetsOf(event, layout).None? then live
    else if IsDelete(event, lower) then live - {KeyOf(event)}
    else live[KeyOf(event) := Rendering(event)]
  }

  function LiveRun(live: Live, events: seq<Event>, layout: Layout, lower: Str -> Str): Live {
    if events == [] then live
    else Next(LiveRun(live, events[..|events| - 1], layout, lower), events[|events| - 1], layout, lower)
  }

  /** Paths of live records stay apart, and deletes name every path of the record they delete. */
  ghost predicate GoodStep(live: Live, event: Event, layout: Layout, lower: Str -> Str) {
    TargetsOf(event, layout).Some? ==>
      Apart(live, event, layout) && (IsDelete(event, lower) ==> NamesEveryPath(live, event, layout))
  }

  ghost predicate GoodRun(events: seq<Event>, layout: Layout, lower: Str -> Str) {
    forall i :: 0 <= i < |events| ==> GoodStep(LiveRun(map[], events[..i], layout, lower), events[i], layout, lower)
  }

  lemma StepMirrors(files: Files, live: Live, event: Event, client: Client, layout: Layout, lower: Str -> Str)
    requires World(files, live, layout) && Fair(client) && GoodStep(live, event, layout, lower)
    ensures World(Ingest(files, event, client, layout, lower).files, Next(live, event, layout, lower), layout)
  {
    if TargetsOf(event, layout).Some? {
      if IsDelete(event, lower) {
        DeleteRemovesRecord(files, live, event, client, layout, lower);
      } else {
        WriteMirrors(files, live, event, client, layout, lower);
      }
    }
  }

  lemma {:induction false} RunMirrors(events: seq<Event>, client: Client, layout: Layout, lower: Str -> Str)
    requires GoodLayout(layout) && Fair(client) && GoodRun(events, layout, lower)
    ensures World(Run(map[], events, client, layout, lower), LiveRun(map[], events, layout, lower), layout)
  {
    if events == [] {
    } else {
      var front, last := events[..|events| - 1], events[|events| - 1];
      forall i | 0 <= i < |front|
        ensures GoodStep(LiveRun(map[], front[..i], layout, lower), front[i], layout, lower)
      {
        assert front[..i] == events[..i];
      }
      RunMirrors(front, client, layout, lower);
      StepMirrors(Run(map[], front, client, layout, lower), LiveRun(map[], front, layout, lower), last, client, layout,
                  lower);
    }
  }

  /**
   * From an empty store, after every run without failures in which live records never share a
   * path, the store holds exactly the paths of each live record's latest payload, all with its
   * latest rendering.
   */
  lemma RunsMirrorLatestPayloads(events: seq<Event>, client: Client, u: Unicode)
    requires Fair(client) && GoodRun(events, LayoutOf(u), u.lower)
    ensures World(Run(map[], events, client, LayoutOf(u), u.lower), LiveRun(map[], events, LayoutOf(u), u.lower),
                  LayoutOf(u))
  {
    LayoutIsGood(u);
    RunMirrors(events, client, LayoutOf(u), u.lower);
  }

  /** Ingesting a record's latest event again changes nothing. */
  lemma ReingestChangesNothing(files: Files, live: Live, event: Event, client: Client, layout: Layout,
                               lower: Str -> Str)
    requires World(files, live, layout) && Fair(client) && !IsDelete(event, lower)
    requires KeyOf(event) in live && live[KeyOf(event)] == Rendering(event) && Disjoint(live, SchemeOf(layout))
    ensures Ingest(files, event, client, layout, lower).files == files
  {
    assert live[KeyOf(event) := Rendering(event)] == live;
    assert SchemeOf(layout).targets(Rendering(event)).Some?;
    WriteReplaces(files, live, event, client, layout, lower);
    ReplaceSame(files, Ingest(files, event, client, layout, lower).files, live, Rendering(event), SchemeOf(layout));
  }

  // ---------------------------------------------------------------------------
  // Retrying after failures
  // ---------------------------------------------------------------------------

  /** The failing first attempt removed a path that its record no longer has. */
  predicate RemovedAtOnce(client: Client, anchor: Str, p: Str) {
    client.hasRead && client.readOk(anchor) && client.hasDelete && client.deleteOk(p)
  }

  /**
   * What the retry finds stale: nothing once the by-id file was written, else what the first attempt
   * should have removed.
   */
  lemma SecondStale(files: Files, live: Live, event: Event, once: Files, wrote: bool, second: Client, layout: Layout)
    requires World(files, live, layout) && Fair(second)
    requires TargetsOf(event, layout).Some? && Apart(live, event, layout)
    requires
      var anchor := layout.anchor(event.kind, event.objectId).value;
      if wrote then anchor in once && once[anchor] == Rendering(event)
      else (anchor in once <==> anchor in files) && (anchor in once ==> once[anchor] == files[anchor])
    ensures StalePaths(once, event, TargetsOf(event, layout).value, second, layout).Some?
    ensures forall p :: p in Stale(once, event, second, layout) <==>
      !wrote && Had(live, event, p, layout) && !Targets(event, p, layout)
  {
    AnchorHolds(files, live, event, layout);
    if wrote {
      OutdatedMembers(TargetsOf(event, layout).value, TargetsOf(event, layout).value);
    } else if KeyOf(event) in live {
      OutdatedMembers(SchemeOf(layout).targets(live[KeyOf(event)]).value, TargetsOf(event, layout).value);
    }
  }

  /** What a first attempt with failures, and then a retry without, leave at a path. */
  ghost predicate RetriedAt(files: Files, twice: Files, live: Live, event: Event, first: Client, layout: Layout, p: Str)
    requires layout.anchor(event.kind, event.objectId).Some?
  {
    var anchor := layout.anchor(event.kind, event.objectId).value;
    var lost := Had(live, event, p, layout) && (!first.writeOk(anchor) || RemovedAtOnce(first, anchor, p));
    if Targets(event, p, layout) then p in twice && twice[p] == Rendering(event)
    else (p in twice <==> p in files && !lost) && (p in twice ==> twice[p] == files[p])
  }

  /** What the first attempt leaves at a path. */
  ghost predicate OnceAt(files: Files, once: Files, live: Live, event: Event, first: Client, layout: Layout, p: Str)
    requires layout.anchor(event.kind, event.objectId).Some?
  {
    var anchor := layout.anchor(event.kind, event.objectId).value;
    var lost := Had(live, event, p, layout) && !Targets(event, p, layout) && RemovedAtOnce(first, anchor, p);
    if Targets(event, p, layout) && first.writeOk(p) then p in once && once[p] == Rendering(event)
    else (p in once <==> p in files && !lost) && (p in once ==> once[p] == files[p])
  }

  lemma FirstAttempt(files: Files, live: Live, event: Event, first: Client, layout: Layout, lower: Str -> Str, p: Str)
    requires World(files, live, layout) && !IsDelete(event, lower)
    requires TargetsOf(event, layout).Some? && Apart(live, event, layout)
    ensures layout.anchor(event.kind, event.objectId).Some? && Ingest(files, event, first, layout, lower).Done?
    ensures OnceAt(files, Ingest(files, event, first, layout, lower).files, live, event, first, layout, p)
  {
    AnchorHolds(files, live, event, layout);
    if first.hasRead { StaleOf(files, live, event, first, layout); }
    EachPathByItsOwnCall(files, event, first, layout, lower, p);
  }

  lemma SecondAttempt(files: Files, once: Files, live: Live, event: Event, first: Client, second: Client,
                      layout: Layout, lower: Str -> Str, p: Str)
    requires World(files, live, layout) && Fair(second) && !IsDelete(event, lower)
    requires TargetsOf(event, layout).Some? && Apart(live, event, layout)
    requires layout.anchor(event.kind, event.objectId).Some?
    requires OnceAt(files, once, live, event, first, layout, layout.anchor(event.kind, event.objectId).value)
    requires OnceAt(files, once, live, event, first, layout, p)
    ensures Ingest(once, event, second, layout, lower).Done?
    ensures RetriedAt(files, Ingest(once, event, second, layout, lower).files, live, event, first, layout, p)
  {
    var anchor := layout.anchor(event.kind, event.objectId).value;
    assert Targets(event, anchor, layout);
    SecondStale(files, live, event, once, first.writeOk(anchor), second, layout);
    EachPathByItsOwnCall(once, event, second, layout, lower, p);
  }

  lemma RetryEffect(files: Files, live: Live, event: Event, first: Client, second: Client, layout: Layout,
                    lower: Str -> Str, p: Str)
    requires World(files, live, layout) && Fair(second) && !IsDelete(event, lower)
    requires TargetsOf(event, layout).Some? && Apart(live, event, layout)
    ensures
      var once := Ingest(files, event, first, layout, lower);
      var twice := Ingest(once.files, event, second, layout, lower);
      once.Done? && twice.Done? && RetriedAt(files, twice.files, live, event, first, layout, p)
  {
    FirstAttempt(files, live, event, first, layout, lower, p);
    FirstAttempt(files, live, event, first, layout, lower, layout.anchor(event.kind, event.objectId).value);
    var once := Ingest(files, event, first, layout, lower).files;
    SecondAttempt(files, once, live, event, first, second, layout, lower, p);
  }

  /** The first attempt removed every path its record no longer has, or failed to write the by-id file. */
  ghost predicate Recoverable(live: Live, event: Event, first: Client, layout: Layout)
    requires layout.anchor(event.kind, event.objectId).Some?
  {
    var anchor := layout.anchor(event.kind, event.objectId).value;
    !first.writeOk(anchor)
    || forall p :: Had(live, event, p, layout) && !Targets(event, p, layout) ==> RemovedAtOnce(first, anchor, p)
  }

  lemma RetriedReplaces(files: Files, twice: Files, live: Live, event: Event, first: Client, layout: Layout)
    requires layout.anchor(event.kind, event.objectId).Some? && Recoverable(live, event, first, layout)
    requires forall p :: RetriedAt(files, twice, live, event, first, layout, p)
    ensures Replaces(files, twice, live, Rendering(event), SchemeOf(layout))
  {
    forall p
      ensures Targets(event, p, layout) ==> p in twice && twice[p] == Rendering(event)
      ensures !Targets(event, p, layout) ==>
        (p in twice <==> p in files && !Had(live, event, p, layout)) && (p in twice ==> twice[p] == files[p])
    {
      assert RetriedAt(files, twice, live, event, first, layout, p);
    }
  }

  lemma Forgotten(files: Files, twice: Files, live: Live, event: Event, first: Client, layout: Layout, next: Live,
                  p: Str)
    requires World(files, live, layout) && next == live[KeyOf(event) := Rendering(event)]
    requires layout.anchor(event.kind, event.objectId).Some? && RetriedAt(files, twice, live, event, first, layout, p)
    requires Had(live, event, p, layout) && !Targets(event, p, layout)
    requires
      var anchor := layout.anchor(event.kind, event.objectId).value;
      first.writeOk(anchor) && !RemovedAtOnce(first, anchor, p)
    ensures !World(twice, next, layout)
  {
    assert p in files && p in twice;
    Orphan(files, live, SchemeOf(layout), p, KeyOf(event), next);
  }

  lemma HealsIff(files: Files, twice: Files, live: Live, event: Event, first: Client, layout: Layout, next: Live)
    requires World(files, live, layout) && Apart(live, event, layout) && next == live[KeyOf(event) := Rendering(event)]
    requires TargetsOf(event, layout).Some? && layout.anchor(event.kind, event.objectId).Some?
    requires forall p :: RetriedAt(files, twice, live, event, first, layout, p)
    ensures World(twice, next, layout) <==> Recoverable(live, event, first, layout)
  {
    if Recoverable(live, event, first, layout) {
      RetriedReplaces(files, twice, live, event, first, layout);
      DisjointOwn(live, Rendering(event), SchemeOf(layout));
      ReplaceMirrors(files, twice, live, Rendering(event), SchemeOf(layout), next);
    } else {
      var anchor := layout.anchor(event.kind, event.objectId).value;
      var p :| Had(live, event, p, layout) && !Targets(event, p, layout) && !RemovedAtOnce(first, anchor, p);
      Forgotten(files, twice, live, event, first, layout, next, p);
    }
  }

  /**
   * An attempt with failures followed by a retry without leaves the store as if nothing had
   * failed exactly when the first attempt removed every stale path or failed to write the by-id
   * file: once that file is written, what it forgot is never found again.
   */
  lemma RetryHeals(files: Files, live: Live, event: Event, first: Client, second: Client, layout: Layout,
                   lower: Str -> Str)
    requires World(files, live, layout) && Fair(second) && !IsDelete(event, lower)
    requires TargetsOf(event, layout).Some? && Apart(live, event, layout)
    ensures
      var once := Ingest(files, event, first, layout, lower).files;
      var twice := Ingest(once, event, second, layout, lower).files;
      World(twice, live[KeyOf(event) := Rendering(event)], layout) <==> Recoverable(live, event, first, layout)
  {
    var once := Ingest(files, event, first, layout, lower).files;
    var twice := Ingest(once, event, second, layout, lower).files;
    forall p ensures RetriedAt(files, twice, live, event, first, layout, p) {
      RetryEffect(files, live, event, first, second, layout, lower, p);
    }
    HealsIff(files, twice, live, event, first, layout, live[KeyOf(event) := Rendering(event)]);
  }
}
