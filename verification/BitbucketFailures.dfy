/**
 * The Bitbucket emitter when calls fail: a call that throws ends its record after the removal from
 * the old scoped index was queued and before the new rows are, and exactly when emitting the record
 * again puts the indexes right (packages/bitbucket/src/emit-auxiliary-files.ts:57-140).
 */
module BitbucketFailures {
  import opened Wrappers
  import opened JsStrings
  import opened IndexFiles
  import opened Bitbucket
  import opened BitbucketRuns

  // ---------------------------------------------------------------------------
  // Without failures
  // ---------------------------------------------------------------------------

  ghost predicate Calm(luck: Luck) {
    luck.hasRead && luck.readOk && luck.hasDelete && forall p :: luck.deleteOk(p) && luck.writeOk(p)
  }

  lemma UpToAll(paths: seq<Str>, ok: Str -> bool)
    requires forall p :: ok(p)
    ensures UpTo(paths, ok) == paths
  {
    UpToIs(paths, ok, |paths|);
  }

  lemma CalmPublish(st: State, record: Record, aliasPath: Str, canonicalPath: Str, targets: seq<Str>, stale: seq<Str>,
                    moved: seq<Str>, layout: Layout, luck: Luck)
    requires Calm(luck)
    ensures TryPublish(st, record, aliasPath, canonicalPath, targets, stale, moved, layout, luck)
      == Publish(st, record, canonicalPath, targets, stale + moved, layout)
  {
    UpToAll(targets, luck.writeOk);
    UpToAll(stale + moved, luck.deleteOk);
  }

  lemma CalmDelete(st: State, id: Str, aliasPath: Str, prior: Prior, layout: Layout, luck: Luck)
    requires Calm(luck)
    ensures TryDelete(st, id, aliasPath, prior, layout, luck) == Delete(st, id, aliasPath, prior, layout)
  {
    UpToAll([aliasPath] + prior.lookups + if prior.canonical.Some? then [prior.canonical.value] else [], luck.deleteOk);
  }

  lemma CalmWrite(st: State, record: Record, aliasPath: Str, prior: Prior, layout: Layout, emitCanonical: bool,
                  luck: Luck)
    requires Calm(luck)
    ensures TryWrite(st, record, aliasPath, prior, layout, emitCanonical, luck)
      == Write(st, record, aliasPath, prior, layout, emitCanonical)
  {
    if layout.canonical(record).Some? && layout.lookups(record).Some? {
      var canonicalPath, lookups := layout.canonical(record).value, layout.lookups(record).value;
      var moved := Moved(prior, canonicalPath);
      CalmPublish(st.(queue := st.queue + RemoveFrom(Scopes(moved, layout), record.id)), record, aliasPath,
                  canonicalPath, (if emitCanonical then [canonicalPath] else []) + [aliasPath] + lookups,
                  Kept(prior.lookups, lookups), moved, layout, luck);
    }
  }

  lemma CalmStep(st: State, record: Record, layout: Layout, emitCanonical: bool, luck: Luck)
    requires Calm(luck)
    ensures Try(st, record, layout, emitCanonical, luck) == Step(st, record, layout, emitCanonical)
  {
    if record.id != [] && layout.byId(record.id).Some? {
      var aliasPath := layout.byId(record.id).value;
      var prior := PriorOf(st.files, aliasPath, layout);
      if prior.Some? {
        var noted := NotePrior(st, aliasPath, prior.value);
        CalmDelete(noted, record.id, aliasPath, prior.value, layout, luck);
        CalmWrite(noted, record, aliasPath, prior.value, layout, emitCanonical, luck);
      }
    }
  }

  /** Without failures the batch is the failure-free one. */
  lemma {:induction false} CalmBatch(st: State, records: seq<Record>, layout: Layout, emitCanonical: bool,
                                     luck: nat -> Luck)
    requires forall i :: 0 <= i < |records| ==> Calm(luck(i))
    ensures TryAll(st, records, layout, emitCanonical, luck) == Batch(st, records, layout, emitCanonical)
  {
    if records == [] {
    } else {
      var front := records[..|records| - 1];
      CalmBatch(st, front, layout, emitCanonical, luck);
      CalmStep(Batch(st, front, layout, emitCanonical), records[|records| - 1], layout, emitCanonical,
               luck(|records| - 1));
    }
  }

  // ---------------------------------------------------------------------------
  // One write
  // ---------------------------------------------------------------------------

  predicate Readable(luck: Luck) { luck.hasRead && luck.readOk }

  /** All calls of a write succeed, or would if the client had them. */
  predicate Completes(record: Record, prior: Prior, layout: Layout, emitCanonical: bool, luck: Luck)
    requires layout.byId(record.id).Some? && layout.canonical(record).Some? && layout.lookups(record).Some?
  {
    AllCalls(TargetsOf(record, layout, emitCanonical), StaleOf(record, prior, layout), luck)
  }

  /** The by-id file is written before any call throws. */
  predicate Anchored(record: Record, layout: Layout, emitCanonical: bool, luck: Luck)
    requires layout.byId(record.id).Some? && layout.canonical(record).Some? && layout.lookups(record).Some?
  {
    layout.byId(record.id).value in UpTo(TargetsOf(record, layout, emitCanonical), luck.writeOk)
  }

  /** What a first try knows of the earlier version. */
  function PriorSeen(live: Live, id: Str, layout: Layout, luck: Luck): Prior {
    if Readable(luck) && id in live && layout.lookups(live[id]).Some?
    then Prior(layout.lookups(live[id]).value, layout.canonical(live[id]))
    else Prior([], None)
  }

  /** The scoped index it then leaves. */
  function LeftSeen(live: Live, record: Record, layout: Layout, luck: Luck): seq<Str> {
    if Readable(luck) then Left(live, record, layout) else []
  }

  lemma {:induction false} UpToMembers(paths: seq<Str>, ok: Str -> bool)
    ensures forall p :: p in UpTo(paths, ok) ==> p in paths
  {
    if paths == [] || !ok(paths[0]) {
    } else {
      UpToMembers(paths[1..], ok);
    }
  }

  lemma SeenFacts(files: Files, live: Live, id: Str, layout: Layout, luck: Luck, ids: set<Str>)
    requires Known(files, live, layout, ids) && id in ids && layout.byId(id).Some?
    ensures PriorOf(Seen(files, luck), layout.byId(id).value, layout) == Some(PriorSeen(live, id, layout, luck))
  {
    PriorFacts(files, live, id, layout, ids);
  }

  /** A by-id file holds the record if it was written, and else what it held. */
  predicate AnchorAfter(files: Files, once: Files, anchor: Str, record: Record, anchored: bool) {
    if anchored then anchor in once && once[anchor] == record
    else (anchor in once <==> anchor in files) && (anchor in once ==> once[anchor] == files[anchor])
  }

  /** Whether all writes, and all deletes that the client has, succeed. */
  predicate AllCalls(targets: seq<Str>, stale: seq<Str>, luck: Luck) {
    && |UpTo(targets, luck.writeOk)| == |targets|
    && (luck.hasDelete ==> |UpTo(stale, luck.deleteOk)| == |stale|)
  }

  lemma PublishUnfolds(st: State, record: Record, aliasPath: Str, canonicalPath: Str, targets: seq<Str>,
                       stale: seq<Str>, moved: seq<Str>, layout: Layout, luck: Luck)
    requires aliasPath !in stale + moved
    ensures
      var row := Upsert(record.id, Row(record.id, canonicalPath, record));
      var after := TryPublish(st, record, aliasPath, canonicalPath, targets, stale, moved, layout, luck);
      && after.queue == st.queue
           + (if AllCalls(targets, stale + moved, luck)
              then [(layout.collection, row), (layout.scope(canonicalPath), row)] else [])
      && AnchorAfter(st.files, after.files, aliasPath, record, aliasPath in UpTo(targets, luck.writeOk))
  {
    UpToMembers(stale + moved, luck.deleteOk);
    assert st.queue + [] == st.queue;
  }

  /** What a try of a write queues, and what it leaves in the by-id file. */
  lemma TryUnfolds(st: State, record: Record, prior: Prior, layout: Layout, emitCanonical: bool, luck: Luck)
    requires Accepted(record, layout) && !record.deleted && layout.lookups(record).Some?
    requires PriorOf(Seen(st.files, luck), layout.byId(record.id).value, layout) == Some(prior)
    requires layout.byId(record.id).value !in StaleOf(record, prior, layout)
    ensures
      var row := Upsert(record.id, Row(record.id, layout.canonical(record).value, record));
      var once, anchor := Try(st, record, layout, emitCanonical, luck), layout.byId(record.id).value;
      && once.queue == st.queue + RemoveFrom(Scopes(Moved(prior, layout.canonical(record).value), layout), record.id)
           + (if Completes(record, prior, layout, emitCanonical, luck)
              then [(layout.collection, row), (ScopeOf(record, layout), row)] else [])
      && AnchorAfter(st.files, once.files, anchor, record, Anchored(record, layout, emitCanonical, luck))
  {
    var aliasPath, canonicalPath := layout.byId(record.id).value, layout.canonical(record).value;
    var read, seen := NoteRead(st, aliasPath, luck), Seen(st.files, luck);
    var unpathed := aliasPath in seen && prior.canonical.None?;
    var noted := if unpathed then read.(errors := read.errors + [aliasPath]) else read;
    var moved := Moved(prior, canonicalPath);
    var left := noted.(queue := noted.queue + RemoveFrom(Scopes(moved, layout), record.id));
    PublishUnfolds(left, record, aliasPath, canonicalPath, TargetsOf(record, layout, emitCanonical),
                   Kept(prior.lookups, layout.lookups(record).value), moved, layout, luck);
  }

  lemma QueueTail(removes: Queue, more: Queue)
    ensures [] + removes + more == removes + more
  {}

  /** No by-id file is among what a write deletes. */
  lemma PriorApart(files: Files, live: Live, record: Record, layout: Layout, luck: Luck, ids: set<Str>)
    requires Known(files, live, layout, ids) && record.id in ids && Accepted(record, layout) && !record.deleted
    requires layout.lookups(record).Some?
    ensures layout.byId(record.id).value !in StaleOf(record, PriorSeen(live, record.id, layout, luck), layout)
  {
    TargetsAndStale(record, PriorSeen(live, record.id, layout, luck), layout, true);
  }

  lemma LeftScopes(live: Live, record: Record, layout: Layout, luck: Luck)
    requires layout.canonical(record).Some? && !record.deleted
    requires record.id in live ==> layout.lookups(live[record.id]).Some?
    ensures Scopes(Moved(PriorSeen(live, record.id, layout, luck), layout.canonical(record).value), layout)
      == LeftSeen(live, record, layout, luck)
    ensures |LeftSeen(live, record, layout, luck)| <= 1
  {
    if Readable(luck) { LeftMoved(live, record, PriorSeen(live, record.id, layout, luck), layout); }
  }

  /** A queue that removes the record from some indexes and, if it comes that far, adds its two rows. */
  ghost predicate Queued(queue: Queue, record: Record, layout: Layout, written: bool, left: seq<Str>)
    requires layout.canonical(record).Some?
  {
    forall p: Str ::
      && RowLast(OnPath(queue, p), record.id, Row(record.id, layout.canonical(record).value, record),
                 written && Covers(p, record, layout))
      && (!(written && Covers(p, record, layout)) ==> (OnPath(queue, p) != [] <==> p in left))
  }

  lemma RowsQueued(record: Record, layout: Layout, left: seq<Str>)
    requires layout.canonical(record).Some? && |left| <= 1
    ensures
      var row := Upsert(record.id, Row(record.id, layout.canonical(record).value, record));
      Queued(RemoveFrom(left, record.id) + [(layout.collection, row), (ScopeOf(record, layout), row)], record, layout,
             true, left)
  {
    forall p: Str {
      RemovesAndRows(left, record.id, layout.collection, ScopeOf(record, layout),
                     Row(record.id, layout.canonical(record).value, record), p);
    }
  }

  lemma RemovesQueued(record: Record, layout: Layout, left: seq<Str>)
    requires layout.canonical(record).Some? && |left| <= 1
    ensures Queued(RemoveFrom(left, record.id), record, layout, false, left)
  {
    forall p: Str { RemovesOnPath(left, record.id, p); }
  }

  /** What a try of a write queues. */
  lemma TryQueued(files: Files, live: Live, record: Record, layout: Layout, emitCanonical: bool, luck: Luck,
                  ids: set<Str>) returns (once: State)
    requires Known(files, live, layout, ids) && record.id in ids && Accepted(record, layout) && !record.deleted
    requires layout.lookups(record).Some?
    ensures once == Try(State(files, [], 0, 0, []), record, layout, emitCanonical, luck)
    ensures Queued(once.queue, record, layout,
                   Completes(record, PriorSeen(live, record.id, layout, luck), layout, emitCanonical, luck),
                   LeftSeen(live, record, layout, luck))
    ensures AnchorAfter(files, once.files, layout.byId(record.id).value, record,
                        Anchored(record, layout, emitCanonical, luck))
  {
    var st, prior := State(files, [], 0, 0, []), PriorSeen(live, record.id, layout, luck);
    var left := LeftSeen(live, record, layout, luck);
    SeenFacts(files, live, record.id, layout, luck, ids);
    PriorApart(files, live, record, layout, luck, ids);
    TryUnfolds(st, record, prior, layout, emitCanonical, luck);
    LeftScopes(live, record, layout, luck);
    once := Try(st, record, layout, emitCanonical, luck);
    if Completes(record, prior, layout, emitCanonical, luck) {
      var row := Upsert(record.id, Row(record.id, layout.canonical(record).value, record));
      QueueTail(RemoveFrom(left, record.id), [(layout.collection, row), (ScopeOf(record, layout), row)]);
      RowsQueued(record, layout, left);
    } else {
      QueueTail(RemoveFrom(left, record.id), []);
      assert RemoveFrom(left, record.id) + [] == RemoveFrom(left, record.id);
      RemovesQueued(record, layout, left);
    }
  }

  /** What the second try finds to leave: nothing once the by-id file was written. */
  function LeftAgain(live: Live, record: Record, layout: Layout, anchored: bool): seq<Str> {
    if anchored then [] else Left(live, record, layout)
  }

  lemma AgainQueued(files: Files, once: Files, live: Live, record: Record, layout: Layout, emitCanonical: bool,
                    anchored: bool, ids: set<Str>) returns (queue: Queue)
    requires Known(files, live, layout, ids) && record.id in ids && Accepted(record, layout) && !record.deleted
    requires AnchorAfter(files, once, layout.byId(record.id).value, record, anchored)
    ensures queue == Step(State(once, [], 0, 0, []), record, layout, emitCanonical).queue
    ensures Queued(queue, record, layout, true, LeftAgain(live, record, layout, anchored))
  {
    var st, anchor := State(once, [], 0, 0, []), layout.byId(record.id).value;
    var row := Upsert(record.id, Row(record.id, layout.canonical(record).value, record));
    var left := LeftAgain(live, record, layout, anchored);
    LookupsKnown(files, live, record, layout, ids);
    PriorFacts(files, live, record.id, layout, ids);
    var prior := PriorOf(once, anchor, layout).value;
    WriteUnfolds(st, record, prior, layout, emitCanonical);
    if anchored { ScopesOfOne(anchor, layout); } else { LeftMoved(live, record, prior, layout); }
    QueueTail(RemoveFrom(left, record.id), [(layout.collection, row), (ScopeOf(record, layout), row)]);
    RowsQueued(record, layout, left);
    queue := Step(st, record, layout, emitCanonical).queue;
  }

  // ---------------------------------------------------------------------------
  // What a write that throws does to the indexes
  // ---------------------------------------------------------------------------

  /** A flush of removes of one id, and of its row where the index is written. */
  lemma FlushRowLast(table: Table<Row>, actions: seq<Action<Row>>, id: Str, row: Row, written: bool, other: Str)
    requires RowLast(actions, id, row, written)
    ensures other != id ==> Find(Flushed(table, actions), other) == Find(table, other)
    ensures Find(Flushed(table, actions), id)
      == if written then Some(row) else if actions == [] then Find(table, id) else None
  {
    UpsertsOf(actions, id);
    UpsertsOf(actions, other);
    RemovesOf(actions, id);
    RemovesOf(actions, other);
    LastOnSome(actions, id);
    LastOnSome(actions, other);
    if written { assert LastOn(actions, id) == Some(Upsert(id, row)); }
  }

  /**
   * The indexes as they were when the live records were partitioned, but for one record: its rows, if
   * they have been written, and the indexes it has been removed from.
   */
  ghost predicate Settles(tables: Tables, live: Live, record: Record, layout: Layout, written: bool, gone: seq<Str>)
    requires layout.canonical(record).Some?
  {
    forall p: Str, id: Str :: Find(TableAt(tables, p), id) == RowAt(live, record, layout, written, gone, p, id)
  }

  function RowAt(live: Live, record: Record, layout: Layout, written: bool, gone: seq<Str>, p: Str, id: Str)
    : Option<Row>
    requires layout.canonical(record).Some?
  {
    if id == record.id && written && Covers(p, record, layout) then
      Some(Row(id, layout.canonical(record).value, record))
    else if id == record.id && p in gone then None
    else Expected(live, p, id, layout)
  }

  /** One flush more. */
  lemma FlushSettles(before: Tables, after: Tables, live: Live, queue: Queue, record: Record, layout: Layout,
                     was: bool, gone: seq<Str>, written: bool, left: seq<Str>)
    requires layout.canonical(record).Some? && Settles(before, live, record, layout, was, gone)
    requires Queued(queue, record, layout, written, left) && (was ==> written)
    requires FlushedAll(before, after, queue, Flushing())
    ensures Settles(after, live, record, layout, written, gone + left)
  {
    forall p: Str, id: Str
      ensures Find(TableAt(after, p), id) == RowAt(live, record, layout, written, gone + left, p, id)
    {
      FlushRowLast(TableAt(before, p), OnPath(queue, p), record.id,
                   Row(record.id, layout.canonical(record).value, record), written && Covers(p, record, layout), id);
      assert TableAt(after, p) == Flushing()(TableAt(before, p), OnPath(queue, p));
      assert Find(TableAt(before, p), id) == RowAt(live, record, layout, was, gone, p, id);
    }
  }

  lemma PartitionSettles(tables: Tables, live: Live, record: Record, layout: Layout)
    requires layout.canonical(record).Some? && Partition(tables, live, layout)
    ensures Settles(tables, live, record, layout, false, [])
  {
    forall p: Str, id: Str ensures Find(TableAt(tables, p), id) == RowAt(live, record, layout, false, [], p, id) {
      assert Find(TableAt(tables, p), id) == Expected(live, p, id, layout);
    }
  }

  /**
   * A write that throws midway keeps the scoped indexes a partition of the collection index exactly
   * when the record keeps its path or its earlier version was not read: else the old scoped index
   * has lost the row that the collection index still has.
   */
  lemma ThrowKeepsPartition(files: Files, live: Live, before: Tables, after: Tables, record: Record, layout: Layout,
                            emitCanonical: bool, luck: Luck, ids: set<Str>)
    requires Known(files, live, layout, ids) && Partition(before, live, layout) && record.id in ids
    requires Accepted(record, layout) && !record.deleted && layout.lookups(record).Some?
    requires !Completes(record, PriorSeen(live, record.id, layout, luck), layout, emitCanonical, luck)
    requires FlushedAll(before, after, Try(State(files, [], 0, 0, []), record, layout, emitCanonical, luck).queue,
                        Flushing())
    ensures forall id: Str ::
      Find(TableAt(after, layout.collection), id) == Find(TableAt(before, layout.collection), id)
    ensures Partition(after, live, layout) <==> LeftSeen(live, record, layout, luck) == []
  {
    var once := TryQueued(files, live, record, layout, emitCanonical, luck, ids);
    PartitionSettles(before, live, record, layout);
    FlushSettles(before, after, live, once.queue, record, layout, false, [], false,
                 LeftSeen(live, record, layout, luck));
    RemovedPartition(before, after, live, record, layout, [] + LeftSeen(live, record, layout, luck));
  }

  lemma RemovedPartition(before: Tables, after: Tables, live: Live, record: Record, layout: Layout, gone: seq<Str>)
    requires GoodLayout(layout) && layout.canonical(record).Some? && Partition(before, live, layout)
    requires Settles(after, live, record, layout, false, gone)
    requires forall p :: p in gone ==>
      record.id in live && layout.canonical(live[record.id]).Some? && p == ScopeOf(live[record.id], layout)
    ensures forall id: Str ::
      Find(TableAt(after, layout.collection), id) == Find(TableAt(before, layout.collection), id)
    ensures Partition(after, live, layout) <==> gone == []
  {
    forall id: Str
      ensures Find(TableAt(after, layout.collection), id) == Find(TableAt(before, layout.collection), id)
    {
      assert Find(TableAt(before, layout.collection), id) == Expected(live, layout.collection, id, layout);
      assert Find(TableAt(after, layout.collection), id)
        == RowAt(live, record, layout, false, gone, layout.collection, id);
    }
    if gone == [] {
      forall p: Str, id: Str ensures Find(TableAt(after, p), id) == Expected(live, p, id, layout) {
        assert Find(TableAt(after, p), id) == RowAt(live, record, layout, false, gone, p, id);
      }
    } else {
      assert gone[0] in gone;
      assert Find(TableAt(after, gone[0]), record.id) == RowAt(live, record, layout, false, gone, gone[0], record.id);
      assert Expected(live, gone[0], record.id, layout).Some?;
    }
  }

  // ---------------------------------------------------------------------------
  // Emitting the record again
  // ---------------------------------------------------------------------------

  /** The record changed its repository, and the first try wrote the by-id file without having read it. */
  predicate LostTrack(live: Live, record: Record, layout: Layout, emitCanonical: bool, luck: Luck)
    requires Accepted(record, layout) && !record.deleted && layout.lookups(record).Some?
  {
    && record.id in live && layout.canonical(live[record.id]).Some?
    && ScopeOf(live[record.id], layout) != ScopeOf(record, layout)
    && !Readable(luck) && Anchored(record, layout, emitCanonical, luck)
  }

  /** The record's old scoped index is neither its new one nor among those it was removed from. */
  predicate LeftBehind(live: Live, record: Record, layout: Layout, gone: seq<Str>)
    requires layout.canonical(record).Some?
  {
    && record.id in live && layout.canonical(live[record.id]).Some?
    && ScopeOf(live[record.id], layout) != ScopeOf(record, layout) && ScopeOf(live[record.id], layout) !in gone
  }

  lemma WrittenPartition(after: Tables, live: Live, record: Record, layout: Layout, gone: seq<Str>)
    requires GoodLayout(layout) && layout.canonical(record).Some?
    requires record.id in live ==> layout.canonical(live[record.id]).Some?
    requires Settles(after, live, record, layout, true, gone)
    ensures Partition(after, live[record.id := record], layout) <==> !LeftBehind(live, record, layout, gone)
  {
    var next := live[record.id := record];
    if LeftBehind(live, record, layout, gone) {
      var p := ScopeOf(live[record.id], layout);
      assert Find(TableAt(after, p), record.id) == RowAt(live, record, layout, true, gone, p, record.id);
      assert Expected(live, p, record.id, layout).Some? && Expected(next, p, record.id, layout).None?;
    } else {
      forall p: Str, id: Str ensures Find(TableAt(after, p), id) == Expected(next, p, id, layout) {
        assert Find(TableAt(after, p), id) == RowAt(live, record, layout, true, gone, p, id);
      }
    }
  }

  /**
   * Whatever a first try of a write meets, emitting the record again without failures makes the
   * scoped indexes a partition of the collection index again exactly when the first try did not lose
   * track of the record's old repository.
   */
  lemma WriteRetryRestores(files: Files, live: Live, before: Tables, mid: Tables, after: Tables, record: Record,
                           layout: Layout, emitCanonical: bool, luck: Luck, ids: set<Str>)
    requires Known(files, live, layout, ids) && Partition(before, live, layout) && record.id in ids
    requires Accepted(record, layout) && !record.deleted && layout.lookups(record).Some?
    requires
      var once := Try(State(files, [], 0, 0, []), record, layout, emitCanonical, luck);
      && FlushedAll(before, mid, once.queue, Flushing())
      && FlushedAll(mid, after, Step(State(once.files, [], 0, 0, []), record, layout, emitCanonical).queue, Flushing())
    ensures Partition(after, live[record.id := record], layout)
      <==> !LostTrack(live, record, layout, emitCanonical, luck)
  {
    var anchored := Anchored(record, layout, emitCanonical, luck);
    var written := Completes(record, PriorSeen(live, record.id, layout, luck), layout, emitCanonical, luck);
    var left, left' := LeftSeen(live, record, layout, luck), LeftAgain(live, record, layout, anchored);
    var once := TryQueued(files, live, record, layout, emitCanonical, luck, ids);
    var queue := AgainQueued(files, once.files, live, record, layout, emitCanonical, anchored, ids);
    TwoFlushes(live, before, mid, after, record, layout, once.queue, queue, written, left, left');
    LostIff(live, record, layout, emitCanonical, luck);
  }

  lemma LostIff(live: Live, record: Record, layout: Layout, emitCanonical: bool, luck: Luck)
    requires Accepted(record, layout) && !record.deleted && layout.lookups(record).Some?
    ensures
      var left := LeftAgain(live, record, layout, Anchored(record, layout, emitCanonical, luck));
      LeftBehind(live, record, layout, [] + LeftSeen(live, record, layout, luck) + left)
      <==> LostTrack(live, record, layout, emitCanonical, luck)
  {}

  lemma TwoFlushes(live: Live, before: Tables, mid: Tables, after: Tables, record: Record, layout: Layout,
                   first: Queue, second: Queue, written: bool, left: seq<Str>, left': seq<Str>)
    requires GoodLayout(layout) && layout.canonical(record).Some? && Partition(before, live, layout)
    requires record.id in live ==> layout.canonical(live[record.id]).Some?
    requires Queued(first, record, layout, written, left) && Queued(second, record, layout, true, left')
    requires FlushedAll(before, mid, first, Flushing()) && FlushedAll(mid, after, second, Flushing())
    ensures Partition(after, live[record.id := record], layout)
      <==> !LeftBehind(live, record, layout, [] + left + left')
  {
    PartitionSettles(before, live, record, layout);
    FlushSettles(before, mid, live, first, record, layout, false, [], written, left);
    FlushSettles(mid, after, live, second, record, layout, written, [] + left, true, left');
    WrittenPartition(after, live, record, layout, [] + left + left');
  }
}
