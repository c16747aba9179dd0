/**
 * The record files of the Bitbucket emitter: what one record does to every path, and over whole runs a
 * store that mirrors the live records at their canonical, by-id and lookup paths
 * (packages/bitbucket/src/emit-auxiliary-files.ts:57-134).
 */
module BitbucketFiles {
  import opened Wrappers
  import opened JsStrings
  import opened UriCodec
  import opened StatusSlugs
  import opened AliasStore
  import opened Bitbucket
  import opened BitbucketRuns

  // ---------------------------------------------------------------------------
  // One record
  // ---------------------------------------------------------------------------

  /** The record has the path now: its by-id path, a lookup path or, when it is emitted, its canonical path. */
  predicate Current(record: Record, p: Str, layout: Layout, emitCanonical: bool) {
    || layout.byId(record.id) == Some(p)
    || (layout.lookups(record).Some? && p in layout.lookups(record).value)
    || (emitCanonical && layout.canonical(record) == Some(p))
  }

  /** The earlier version had the path as a lookup or canonical path. */
  predicate Earlier(prior: Record, p: Str, layout: Layout) {
    (layout.lookups(prior).Some? && p in layout.lookups(prior).value) || layout.canonical(prior) == Some(p)
  }

  /** The version of a record that its by-id file holds. */
  function StoredVersion(files: Files, id: Str, layout: Layout): Option<Record> {
    match layout.byId(id)
    case None => None
    case Some(anchor) => if anchor in files then Some(files[anchor]) else None
  }

  predicate SameAt(files: Files, after: Files, p: Str) {
    (p in after <==> p in files) && (p in after ==> after[p] == files[p])
  }

  /** What a write does to a path: it is the record's, or it was and is gone, or it is as before. */
  predicate WrittenAt(files: Files, after: Files, record: Record, p: Str, layout: Layout, emitCanonical: bool) {
    var prior := StoredVersion(files, record.id, layout);
    if Current(record, p, layout, emitCanonical) then p in after && after[p] == record
    else if prior.Some? && Earlier(prior.value, p, layout) && layout.canonical(record) != Some(p) then p !in after
    else SameAt(files, after, p)
  }

  /** What a deletion does to a path: whatever the stored version has is gone. */
  predicate DeletedAt(files: Files, after: Files, id: Str, p: Str, layout: Layout) {
    var prior := StoredVersion(files, id, layout);
    if layout.byId(id) == Some(p) || (prior.Some? && Earlier(prior.value, p, layout)) then p !in after
    else SameAt(files, after, p)
  }

  /** Canonical paths are apart from all others and lookups print. */
  ghost predicate TidyLayout(layout: Layout) { GoodLayout(layout) && CanonicalApartFromLookups(layout) }

  /**
   * A write leaves the record at every path it has now, removes every path that the stored version had
   * and the record no longer has, and touches nothing else.
   */
  lemma WriteDoes(st: State, record: Record, layout: Layout, emitCanonical: bool, p: Str)
    requires TidyLayout(layout) && Accepted(record, layout) && !record.deleted && layout.lookups(record).Some?
    requires
      var prior := StoredVersion(st.files, record.id, layout);
      prior.Some? ==> layout.lookups(prior.value).Some?
    ensures WrittenAt(st.files, Step(st, record, layout, emitCanonical).files, record, p, layout, emitCanonical)
  {
    var prior := PriorOf(st.files, layout.byId(record.id).value, layout).value;
    WriteUnfolds(st, record, prior, layout, emitCanonical);
    KeptMembers(prior.lookups, layout.lookups(record).value);
    WriteAtPath(st.files, record, prior, layout, emitCanonical, p);
  }

  lemma WriteAtPath(files: Files, record: Record, prior: Prior, layout: Layout, emitCanonical: bool, p: Str)
    requires TidyLayout(layout) && Accepted(record, layout) && !record.deleted && layout.lookups(record).Some?
    requires PriorOf(files, layout.byId(record.id).value, layout) == Some(prior)
    requires forall q ::
      q in Kept(prior.lookups, layout.lookups(record).value)
      <==> q in prior.lookups && q !in layout.lookups(record).value
    ensures WrittenAt(files, Without(With(files, TargetsOf(record, layout, emitCanonical), record),
                                     StaleOf(record, prior, layout)), record, p, layout, emitCanonical)
  {
    var targets, stale := TargetsOf(record, layout, emitCanonical), StaleOf(record, prior, layout);
    assert p in targets <==> Current(record, p, layout, emitCanonical);
    assert p in stale <==>
      || (p in prior.lookups && p !in layout.lookups(record).value)
      || (prior.canonical == Some(p) && layout.canonical(record) != Some(p));
  }

  /** A deletion removes everything that the stored version has, and nothing else. */
  lemma DeleteDoes(st: State, record: Record, layout: Layout, emitCanonical: bool, p: Str)
    requires Accepted(record, layout) && record.deleted
    requires
      var prior := StoredVersion(st.files, record.id, layout);
      prior.Some? ==> layout.lookups(prior.value).Some?
    ensures DeletedAt(st.files, Step(st, record, layout, emitCanonical).files, record.id, p, layout)
  {
    var aliasPath := layout.byId(record.id).value;
    var prior := PriorOf(st.files, aliasPath, layout).value;
    var previous := if prior.canonical.Some? then [prior.canonical.value] else [];
    assert p in [aliasPath] + prior.lookups + previous
      <==> p == aliasPath || p in prior.lookups || prior.canonical == Some(p);
  }

  // ---------------------------------------------------------------------------
  // The same with failing calls
  // ---------------------------------------------------------------------------

  lemma {:induction false} UpToPrefix(paths: seq<Str>, ok: Str -> bool)
    ensures UpTo(paths, ok) == paths[..|UpTo(paths, ok)|]
    ensures forall p :: p in UpTo(paths, ok) ==> p in paths && ok(p)
    ensures |UpTo(paths, ok)| < |paths| ==> !ok(paths[|UpTo(paths, ok)|])
  {
    if paths == [] || !ok(paths[0]) {
    } else {
      UpToPrefix(paths[1..], ok);
      var rest := UpTo(paths[1..], ok);
      assert paths[..|rest| + 1] == [paths[0]] + paths[1..][..|rest|];
    }
  }

  /** With failing calls a write may leave a path, write it, or remove it if only the earlier version had it. */
  predicate MayBecome(files: Files, after: Files, record: Record, prior: Option<Record>, p: Str, layout: Layout,
                      emitCanonical: bool)
  {
    || SameAt(files, after, p)
    || (Current(record, p, layout, emitCanonical) && p in after && after[p] == record)
    || (!Current(record, p, layout, emitCanonical) && prior.Some? && Earlier(prior.value, p, layout) && p !in after)
  }

  lemma PublishDoes(st: State, record: Record, aliasPath: Str, canonicalPath: Str, targets: seq<Str>, stale: seq<Str>,
                    moved: seq<Str>, layout: Layout, luck: Luck, p: Str)
    requires forall q :: q in stale + moved ==> q !in targets
    ensures
      var after := TryPublish(st, record, aliasPath, canonicalPath, targets, stale, moved, layout, luck).files;
      && (SameAt(st.files, after, p) || (p in targets && p in after && after[p] == record)
          || (p in stale + moved && p !in after))
      && (p in st.files && p !in after ==> forall q :: q in targets ==> q in after && after[q] == record)
  {
    UpToPrefix(targets, luck.writeOk);
    UpToPrefix(stale + moved, luck.deleteOk);
    assert targets[..|targets|] == targets;
  }

  /**
   * Whatever calls fail, a write touches no path but the record's own, which it writes, and those only the
   * earlier version had, which it removes; and it removes nothing before every path of the record is written.
   */
  lemma TriedWriteDoes(st: State, record: Record, layout: Layout, emitCanonical: bool, luck: Luck, p: Str)
    requires TidyLayout(layout) && Accepted(record, layout) && !record.deleted && layout.lookups(record).Some?
    requires
      var prior := StoredVersion(Seen(st.files, luck), record.id, layout);
      prior.Some? ==> layout.lookups(prior.value).Some?
    ensures
      var after, prior := Try(st, record, layout, emitCanonical, luck).files,
                          StoredVersion(Seen(st.files, luck), record.id, layout);
      && MayBecome(st.files, after, record, prior, p, layout, emitCanonical)
      && (p in st.files && p !in after ==>
          forall q :: Current(record, q, layout, emitCanonical) ==> q in after && after[q] == record)
  {
    var prior := PriorOf(Seen(st.files, luck), layout.byId(record.id).value, layout).value;
    var targets, stale := TargetsOf(record, layout, emitCanonical), StaleOf(record, prior, layout);
    KeptMembers(prior.lookups, layout.lookups(record).value);
    TargetsAre(record, prior, layout, emitCanonical);
    var canonicalPath := layout.canonical(record).value;
    var read := NoteRead(st, layout.byId(record.id).value, luck);
    var noted := if layout.byId(record.id).value in Seen(st.files, luck) && prior.canonical.None?
      then read.(errors := read.errors + [layout.byId(record.id).value]) else read;
    var left := noted.(queue := noted.queue + RemoveFrom(Scopes(Moved(prior, canonicalPath), layout), record.id));
    PublishDoes(left, record, layout.byId(record.id).value, canonicalPath, targets,
                Kept(prior.lookups, layout.lookups(record).value), Moved(prior, canonicalPath), layout, luck, p);
  }

  lemma TargetsAre(record: Record, prior: Prior, layout: Layout, emitCanonical: bool)
    requires TidyLayout(layout) && Accepted(record, layout) && !record.deleted && layout.lookups(record).Some?
    ensures forall q :: q in TargetsOf(record, layout, emitCanonical) <==> Current(record, q, layout, emitCanonical)
  {}

  /**
   * Whatever calls fail, a deletion touches no path but the by-id path and those of the stored version, which
   * it removes, and it removes none of them before the by-id file.
   */
  lemma TriedDeleteDoes(st: State, record: Record, layout: Layout, emitCanonical: bool, luck: Luck, p: Str)
    requires Accepted(record, layout) && record.deleted
    requires
      var prior := StoredVersion(Seen(st.files, luck), record.id, layout);
      prior.Some? ==> layout.lookups(prior.value).Some?
    ensures
      var after, prior := Try(st, record, layout, emitCanonical, luck).files,
                          StoredVersion(Seen(st.files, luck), record.id, layout);
      && (SameAt(st.files, after, p)
          || (p !in after
              && (layout.byId(record.id) == Some(p) || (prior.Some? && Earlier(prior.value, p, layout)))))
      && (p in st.files && p !in after ==> layout.byId(record.id).value !in after)
  {
    var aliasPath := layout.byId(record.id).value;
    var prior := PriorOf(Seen(st.files, luck), aliasPath, layout).value;
    var previous := if prior.canonical.Some? then [prior.canonical.value] else [];
    UpToPrefix([aliasPath] + prior.lookups + previous, luck.deleteOk);
  }

  /** A write counts every path it writes, a deletion every path of the stored version, and neither reports an error. */
  lemma StepCounts(st: State, record: Record, layout: Layout, emitCanonical: bool)
    requires Accepted(record, layout) && (!record.deleted ==> layout.lookups(record).Some?)
    requires
      var prior := StoredVersion(st.files, record.id, layout);
      prior.Some? ==> layout.lookups(prior.value).Some? && layout.canonical(prior.value).Some?
    ensures
      var after, prior := Step(st, record, layout, emitCanonical), StoredVersion(st.files, record.id, layout);
      && after.errors == st.errors
      && if record.deleted then
           && after.written == st.written
           && after.deleted == st.deleted + 1 + if prior.Some? then |layout.lookups(prior.value).value| + 1 else 0
         else after.written
                == st.written + 1 + |layout.lookups(record).value| + if emitCanonical then 1 else 0
  {}

  // ---------------------------------------------------------------------------
  // The store mirrors the live records
  // ---------------------------------------------------------------------------

  /** Records of different trimmed ids share no lookup path. */
  ghost predicate LookupsTellIds(layout: Layout) {
    forall r: Record, q: Record, p: Str ::
      layout.lookups(r).Some? && layout.lookups(q).Some? && p in layout.lookups(r).value && p in layout.lookups(q).value
      ==> Trim(r.id) == Trim(q.id)
  }

  function PathsOf(record: Record, layout: Layout, emitCanonical: bool): Option<seq<Str>> {
    if layout.byId(record.id).Some? && layout.canonical(record).Some? && layout.lookups(record).Some? then
      Some(TargetsOf(record, layout, emitCanonical))
    else None
  }

  function SchemeOf(layout: Layout, emitCanonical: bool): Scheme<Record, Str> {
    Scheme((record: Record) => record.id, (record: Record) => PathsOf(record, layout, emitCanonical))
  }

  ghost predicate World(files: Files, live: Live, layout: Layout, ids: set<Str>, emitCanonical: bool) {
    && TidyLayout(layout) && LookupsTellIds(layout) && Known(files, live, layout, ids)
    && Mirrors(files, live, SchemeOf(layout, emitCanonical))
  }

  /** When canonical files are emitted, no other live record has the record's canonical path. */
  ghost predicate Apart(live: Live, record: Record, layout: Layout, emitCanonical: bool) {
    emitCanonical && layout.canonical(record).Some? ==>
      forall j :: j in live && j != record.id ==> layout.canonical(live[j]) != layout.canonical(record)
  }

  lemma HasIs(record: Record, p: Str, layout: Layout, emitCanonical: bool)
    requires PathsOf(record, layout, emitCanonical).Some?
    ensures Has(record, p, SchemeOf(layout, emitCanonical)) <==> Current(record, p, layout, emitCanonical)
  {}

  /** A path that a record has, or had as a lookup, is no other live record's. */
  lemma ForeignPath(files: Files, live: Live, record: Record, layout: Layout, ids: set<Str>, emitCanonical: bool,
                    p: Str, j: Str)
    requires World(files, live, layout, ids, emitCanonical) && record.id in ids && j in live && j != record.id
    requires Apart(live, record, layout, emitCanonical) && PathsOf(record, layout, emitCanonical).Some?
    requires Current(record, p, layout, emitCanonical)
    ensures !Has(live[j], p, SchemeOf(layout, emitCanonical))
  {
    HasIs(live[j], p, layout, emitCanonical);
    if Current(live[j], p, layout, emitCanonical) { SharedPath(record, live[j], p, layout, emitCanonical); }
  }

  /** How two records can share a path. */
  lemma SharedPath(a: Record, b: Record, p: Str, layout: Layout, emitCanonical: bool)
    requires TidyLayout(layout) && LookupsTellIds(layout)
    requires Current(a, p, layout, emitCanonical) && Current(b, p, layout, emitCanonical)
    ensures Trim(a.id) == Trim(b.id)
      || (emitCanonical && layout.canonical(a) == layout.canonical(b) == Some(p))
  {}

  lemma WriteReplaces(st: State, live: Live, record: Record, layout: Layout, ids: set<Str>, emitCanonical: bool)
    requires World(st.files, live, layout, ids, emitCanonical) && record.id in ids
    requires Accepted(record, layout) && !record.deleted
    ensures PathsOf(record, layout, emitCanonical).Some?
    ensures Replaces(st.files, Step(st, record, layout, emitCanonical).files, live, record,
                     SchemeOf(layout, emitCanonical))
  {
    LookupsKnown(st.files, live, record, layout, ids);
    var after := Step(st, record, layout, emitCanonical).files;
    forall p
      ensures
        var had := record.id in live && Has(live[record.id], p, SchemeOf(layout, emitCanonical));
        if Has(record, p, SchemeOf(layout, emitCanonical)) then p in after && after[p] == record
        else (p in after <==> p in st.files && !had) && (p in after ==> after[p] == st.files[p])
    {
      WriteDoes(st, record, layout, emitCanonical, p);
      HasIs(record, p, layout, emitCanonical);
      if record.id in live { HasIs(live[record.id], p, layout, emitCanonical); }
      UnheldPath(st.files, live, record, layout, ids, emitCanonical, p);
    }
  }

  /** The canonical path of a live record that is not emitted is nobody's. */
  lemma UnheldPath(files: Files, live: Live, record: Record, layout: Layout, ids: set<Str>, emitCanonical: bool, p: Str)
    requires World(files, live, layout, ids, emitCanonical)
    ensures !emitCanonical && record.id in live && layout.canonical(live[record.id]) == Some(p) ==> p !in files
  {
    var scheme := SchemeOf(layout, emitCanonical);
    if !emitCanonical && record.id in live && layout.canonical(live[record.id]) == Some(p) {
      forall j: Str | j in live ensures !Has(live[j], p, scheme) {
        HasIs(live[j], p, layout, emitCanonical);
        NotCurrent(live[record.id], live[j], layout);
      }
      assert !Owned(live, p, scheme);
    }
  }

  lemma NotCurrent(record: Record, other: Record, layout: Layout)
    requires TidyLayout(layout) && layout.canonical(record).Some?
    ensures !Current(other, layout.canonical(record).value, layout, false)
  {}

  lemma WriteMirrors(st: State, live: Live, record: Record, layout: Layout, ids: set<Str>, emitCanonical: bool)
    requires World(st.files, live, layout, ids, emitCanonical) && record.id in ids
    requires Accepted(record, layout) && !record.deleted && Apart(live, record, layout, emitCanonical)
    ensures Mirrors(Step(st, record, layout, emitCanonical).files, live[record.id := record],
                    SchemeOf(layout, emitCanonical))
  {
    var scheme := SchemeOf(layout, emitCanonical);
    WriteReplaces(st, live, record, layout, ids, emitCanonical);
    forall j: Str, p: Str | j in live && j != record.id && Has(record, p, scheme) ensures !Has(live[j], p, scheme) {
      HasIs(record, p, layout, emitCanonical);
      ForeignPath(st.files, live, record, layout, ids, emitCanonical, p, j);
    }
    ReplaceMirrors(st.files, Step(st, record, layout, emitCanonical).files, live, record, scheme,
                   live[record.id := record]);
  }

  /** The paths a deletion removes: the by-id path and, if the record is live, all it could have. */
  function GoneWith(live: Live, id: Str, layout: Layout): seq<Str> {
    (if layout.byId(id).Some? then [layout.byId(id).value] else [])
    + (if id in live && layout.lookups(live[id]).Some? then layout.lookups(live[id]).value else [])
    + (if id in live && layout.canonical(live[id]).Some? then [layout.canonical(live[id]).value] else [])
  }

  lemma GoneWithIs(files: Files, live: Live, id: Str, layout: Layout, ids: set<Str>, p: Str)
    requires Known(files, live, layout, ids) && id in ids && layout.byId(id).Some?
    ensures StoredVersion(files, id, layout) == if id in live then Some(live[id]) else None
    ensures p in GoneWith(live, id, layout)
      <==> layout.byId(id) == Some(p) || (id in live && Earlier(live[id], p, layout))
  {}

  lemma DeleteSpares(files: Files, live: Live, id: Str, layout: Layout, ids: set<Str>, emitCanonical: bool, p: Str,
                     j: Str)
    requires World(files, live, layout, ids, emitCanonical) && id in ids && layout.byId(id).Some?
    requires j in live && j != id && (layout.byId(id) == Some(p) || (id in live && Earlier(live[id], p, layout)))
    ensures !Has(live[j], p, SchemeOf(layout, emitCanonical))
  {
    HasIs(live[j], p, layout, emitCanonical);
    if Current(live[j], p, layout, emitCanonical) && id in live {
      HasIs(live[id], p, layout, emitCanonical);
      if Current(live[id], p, layout, emitCanonical) {
        OneOwner(files, live, SchemeOf(layout, emitCanonical), p, j, id);
      }
    }
  }

  lemma DeleteStep(st: State, live: Live, record: Record, layout: Layout, ids: set<Str>, emitCanonical: bool)
    requires World(st.files, live, layout, ids, emitCanonical) && record.id in ids
    requires Accepted(record, layout) && record.deleted
    ensures Mirrors(Step(st, record, layout, emitCanonical).files, live - {record.id}, SchemeOf(layout, emitCanonical))
  {
    var gone, scheme, after := GoneWith(live, record.id, layout), SchemeOf(layout, emitCanonical),
                               Step(st, record, layout, emitCanonical).files;
    forall p ensures (p in after <==> p in st.files && p !in gone) && (p in after ==> after[p] == st.files[p]) {
      GoneWithIs(st.files, live, record.id, layout, ids, p);
      DeleteDoes(st, record, layout, emitCanonical, p);
    }
    forall j: Str, p: Str | j in live && j != record.id && p in gone ensures !Has(live[j], p, scheme) {
      GoneWithIs(st.files, live, record.id, layout, ids, p);
      DeleteSpares(st.files, live, record.id, layout, ids, emitCanonical, p, j);
    }
    CoversAll(st.files, live, record.id, layout, ids, emitCanonical, gone);
    DeleteMirrors(st.files, after, live, record.id, gone, scheme, live - {record.id});
  }

  lemma CoversAll(files: Files, live: Live, id: Str, layout: Layout, ids: set<Str>, emitCanonical: bool, gone: seq<Str>)
    requires World(files, live, layout, ids, emitCanonical) && id in ids && layout.byId(id).Some?
    requires gone == GoneWith(live, id, layout)
    ensures AliasStore.Covers(live, id, gone, SchemeOf(layout, emitCanonical))
  {
    if id in live {
      forall p | Has(live[id], p, SchemeOf(layout, emitCanonical)) ensures p in gone {
        HasIs(live[id], p, layout, emitCanonical);
        GoneWithIs(files, live, id, layout, ids, p);
      }
    }
  }

  /** One record without failures keeps the store a mirror of the live records. */
  lemma StepMirrors(st: State, live: Live, record: Record, layout: Layout, ids: set<Str>, emitCanonical: bool)
    requires World(st.files, live, layout, ids, emitCanonical) && record.id in ids
    requires Apart(live, record, layout, emitCanonical)
    ensures World(Step(st, record, layout, emitCanonical).files, Next(live, record, layout), layout, ids, emitCanonical)
  {
    StepKnown(st, live, record, layout, emitCanonical, ids);
    if !Accepted(record, layout) {
      SkippedStep(st, live, record, layout, emitCanonical, ids);
    } else if record.deleted {
      DeleteStep(st, live, record, layout, ids, emitCanonical);
    } else {
      WriteMirrors(st, live, record, layout, ids, emitCanonical);
    }
  }

  // ---------------------------------------------------------------------------
  // Whole runs
  // ---------------------------------------------------------------------------

  /** Every record of a batch has a canonical path of its own when its turn comes. */
  ghost predicate ApartBatch(live: Live, records: seq<Record>, layout: Layout, emitCanonical: bool) {
    forall i :: 0 <= i < |records| ==> Apart(LiveBatch(live, records[..i], layout), records[i], layout, emitCanonical)
  }

  ghost predicate ApartRun(batches: seq<seq<Record>>, layout: Layout, emitCanonical: bool) {
    forall i :: 0 <= i < |batches| ==> ApartBatch(LiveRun(batches[..i], layout), batches[i], layout, emitCanonical)
  }

  lemma {:induction false} BatchMirrors(st: State, live: Live, records: seq<Record>, layout: Layout, ids: set<Str>,
                                        emitCanonical: bool)
    requires World(st.files, live, layout, ids, emitCanonical) && GoodBatch(records, ids)
    requires ApartBatch(live, records, layout, emitCanonical)
    ensures World(Batch(st, records, layout, emitCanonical).files, LiveBatch(live, records, layout), layout, ids,
                  emitCanonical)
  {
    if records == [] {
    } else {
      var front, last := records[..|records| - 1], records[|records| - 1];
      forall i | 0 <= i < |front| ensures Apart(LiveBatch(live, front[..i], layout), front[i], layout, emitCanonical) {
        assert front[..i] == records[..i];
      }
      BatchMirrors(st, live, front, layout, ids, emitCanonical);
      StepMirrors(Batch(st, front, layout, emitCanonical), LiveBatch(live, front, layout), last, layout, ids,
                  emitCanonical);
    }
  }

  lemma {:induction false} RunMirrors(batches: seq<seq<Record>>, layout: Layout, ids: set<Str>, emitCanonical: bool)
    requires TidyLayout(layout) && LookupsTellIds(layout) && Consistent(ids, layout)
    requires forall i :: 0 <= i < |batches| ==> GoodBatch(batches[i], ids)
    requires ApartRun(batches, layout, emitCanonical)
    ensures World(Run(batches, layout, emitCanonical).files, LiveRun(batches, layout), layout, ids, emitCanonical)
  {
    if batches == [] {
    } else {
      var front, last := batches[..|batches| - 1], batches[|batches| - 1];
      forall i | 0 <= i < |front| ensures ApartBatch(LiveRun(front[..i], layout), front[i], layout, emitCanonical) {
        assert front[..i] == batches[..i];
      }
      RunMirrors(front, layout, ids, emitCanonical);
      BatchMirrors(State(Run(front, layout, emitCanonical).files, [], 0, 0, []), LiveRun(front, layout), last, layout,
                   ids, emitCanonical);
    }
  }

  lemma SharedLookup(r: Record, q: Record, model: Model, u: Unicode, p: Str)
    requires LookupPaths(r, model, u).Some? && p in LookupPaths(r, model, u).value
    requires LookupPaths(q, model, u).Some? && p in LookupPaths(q, model, u).value
    ensures Trim(r.id) == Trim(q.id)
  {
    var a := LookupsSegments(r, model, u, p);
    var b := LookupsSegments(q, model, u, p);
    RootInjective(a, b);
    var i, j := Segment(Trim(r.id)).value, Segment(Trim(q.id)).value;
    assert i == a[3][..|i|] && j == b[3][..|j|] && |a[3]| == |i| + 5 && |b[3]| == |j| + 5;
    TrimTwice(r.id);
    TrimTwice(q.id);
    EncodeInjective(Trim(r.id), Trim(q.id));
  }

  /**
   * From an empty store, after every failure-free run of pull requests or issues whose ids are always
   * written alike and whose canonical paths stay apart, the files are exactly the canonical, by-id and
   * lookup paths of the live records, each with its record.
   */
  lemma RunsMirrorRecords(batches: seq<seq<Record>>, model: Model, u: Unicode, emitCanonical: bool)
    requires ConsistentIds(IdsOf(batches)) && ApartRun(batches, LayoutOf(model, u), emitCanonical)
    ensures
      var layout := LayoutOf(model, u);
      Mirrors(Run(batches, layout, emitCanonical).files, LiveRun(batches, layout), SchemeOf(layout, emitCanonical))
  {
    var layout, ids := LayoutOf(model, u), IdsOf(batches);
    LayoutIsGood(model, u);
    IdsAreConsistent(ids, model, u);
    forall i | 0 <= i < |batches| ensures GoodBatch(batches[i], ids) { BatchInIds(batches, i); }
    forall r: Record, q: Record, p: Str | layout.lookups(r).Some? && layout.lookups(q).Some?
      && p in layout.lookups(r).value && p in layout.lookups(q).value
      ensures Trim(r.id) == Trim(q.id)
    {
      SharedLookup(r, q, model, u, p);
    }
    RunMirrors(batches, layout, ids, emitCanonical);
  }
}
