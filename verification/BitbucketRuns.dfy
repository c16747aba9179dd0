/**
 * The Bitbucket indexes over whole runs: the per-repository indexes partition the collection
 * index exactly when every batch is settled.
 */
module BitbucketRuns {
  import opened Wrappers
  import opened JsStrings
  import opened PathSegments
  import opened UriCodec
  import opened StatusSlugs
  import opened AliasSlugs
  import opened IndexFiles
  import opened Bitbucket

  type Live = map<Str, Record>

  // ---------------------------------------------------------------------------
  // Layouts
  // ---------------------------------------------------------------------------

  /**
   * By-id paths tell trimmed ids apart and meet no other path, lookups print whenever the other two
   * do, and scoped indexes are never the collection index.
   */
  ghost predicate GoodLayout(layout: Layout) {
    && (forall a: Str, b: Str :: layout.byId(a).Some? && layout.byId(a) == layout.byId(b) ==> Trim(a) == Trim(b))
    && (forall r: Record :: layout.canonical(r).Some? && layout.byId(Trim(r.id)).Some? ==> layout.lookups(r).Some?)
    && (forall r: Record, id: Str :: layout.canonical(r).Some? ==> layout.canonical(r) != layout.byId(id))
    && (forall r: Record, id: Str :: layout.lookups(r).Some? && layout.byId(id).Some? ==>
         layout.byId(id).value !in layout.lookups(r).value)
    && (forall r: Record :: layout.canonical(r).Some? ==> layout.scope(layout.canonical(r).value) != layout.collection)
  }

  /** No record's canonical path is a lookup path of any. */
  ghost predicate CanonicalApartFromLookups(layout: Layout) {
    forall r: Record, q: Record :: layout.canonical(r).Some? && layout.lookups(q).Some? ==>
      layout.canonical(r).value !in layout.lookups(q).value
  }

  // ---------------------------------------------------------------------------
  // Record files
  // ---------------------------------------------------------------------------

  /** Ids that trim alike are the same id, and one that prints still prints when trimmed. */
  ghost predicate Consistent(ids: set<Str>, layout: Layout) {
    && (forall a, b :: a in ids && b in ids && Trim(a) == Trim(b) ==> a == b)
    && (forall a :: a in ids && layout.byId(a).Some? ==> layout.byId(Trim(a)).Some?)
  }

  /** Of the ids in use, the by-id files hold exactly the live records, each of which can be laid out. */
  ghost predicate Known(files: Files, live: Live, layout: Layout, ids: set<Str>) {
    && GoodLayout(layout) && Consistent(ids, layout)
    && (forall id :: id in live ==>
         && live[id].id == id && id in ids && layout.canonical(live[id]).Some? && layout.lookups(live[id]).Some?
         && layout.byId(id).Some? && layout.byId(id).value in files && files[layout.byId(id).value] == live[id])
    && (forall id: Str :: id in ids && layout.byId(id).Some? && layout.byId(id).value in files ==> id in live)
  }

  /** The emitter acts on the record: it has an id, a by-id path and, unless it is a deletion, a path. */
  predicate Accepted(record: Record, layout: Layout) {
    record.id != [] && layout.byId(record.id).Some? && (record.deleted || layout.canonical(record).Some?)
  }

  function Next(live: Live, record: Record, layout: Layout): Live {
    if !Accepted(record, layout) then live
    else if record.deleted then live - {record.id}
    else live[record.id := record]
  }

  function ScopeOf(record: Record, layout: Layout): Str
    requires layout.canonical(record).Some?
  {
    layout.scope(layout.canonical(record).value)
  }

  /** What the emitter recovers of a record's earlier version. */
  lemma PriorFacts(files: Files, live: Live, id: Str, layout: Layout, ids: set<Str>)
    requires Known(files, live, layout, ids) && id in ids && layout.byId(id).Some?
    ensures
      var aliasPath := layout.byId(id).value;
      PriorOf(files, aliasPath, layout) ==
        if id in live then Some(Prior(layout.lookups(live[id]).value, layout.canonical(live[id])))
        else Some(Prior([], None))
    ensures layout.byId(id).value in files <==> id in live
  {}

  lemma {:induction false} KeptMembers(paths: seq<Str>, others: seq<Str>)
    ensures forall p :: p in Kept(paths, others) <==> p in paths && p !in others
  {
    if paths == [] {
    } else {
      KeptMembers(paths[..|paths| - 1], others);
      assert paths == paths[..|paths| - 1] + [paths[|paths| - 1]];
    }
  }

  /** The files after a write: only the record's own by-id file changes among the by-id files. */
  lemma WriteKnown(files: Files, live: Live, record: Record, layout: Layout, targets: seq<Str>, stale: seq<Str>,
                   ids: set<Str>)
    requires Known(files, live, layout, ids) && record.id in ids && layout.byId(record.id).Some?
      && layout.canonical(record).Some?
    requires layout.byId(record.id).value in targets && layout.byId(record.id).value !in stale
    requires forall id: Str :: layout.byId(id).Some? && layout.byId(id).value in targets ==>
      layout.byId(id) == layout.byId(record.id)
    requires forall id: Str :: layout.byId(id).Some? ==> layout.byId(id).value !in stale
    ensures Known(Without(With(files, targets, record), stale), live[record.id := record], layout, ids)
  {
    var after, next := Without(With(files, targets, record), stale), live[record.id := record];
    assert layout.lookups(record).Some? by { LookupsKnown(files, live, record, layout, ids); }
    forall id: Str | id in ids && layout.byId(id).Some? ensures AnchoredAt(after, next, layout, id) {
      WriteAt(files, live, record, layout, targets, stale, id, ids);
    }
    forall id | id in next ensures LaidOut(next[id], id, layout, ids) {}
    KnownByAnchors(after, next, layout, ids);
  }

  /** The by-id file of an id is there exactly when it is live, and holds its record. */
  ghost predicate AnchoredAt(files: Files, live: Live, layout: Layout, id: Str)
    requires layout.byId(id).Some?
  {
    (layout.byId(id).value in files <==> id in live) && (id in live ==> files[layout.byId(id).value] == live[id])
  }

  ghost predicate LaidOut(record: Record, id: Str, layout: Layout, ids: set<Str>) {
    && record.id == id && id in ids && layout.canonical(record).Some? && layout.lookups(record).Some?
    && layout.byId(id).Some?
  }

  lemma KnownByAnchors(files: Files, live: Live, layout: Layout, ids: set<Str>)
    requires GoodLayout(layout) && Consistent(ids, layout) && forall id :: id in live ==>
      LaidOut(live[id], id, layout, ids)
    requires forall id: Str :: id in ids && layout.byId(id).Some? ==> AnchoredAt(files, live, layout, id)
    ensures Known(files, live, layout, ids)
  {
    forall id | id in live
      ensures LaidOut(live[id], id, layout, ids) && AnchoredAt(files, live, layout, id)
    {}
    forall id: Str | id in ids && layout.byId(id).Some? && layout.byId(id).value in files ensures id in live {
      assert AnchoredAt(files, live, layout, id);
    }
  }

  lemma WriteAt(files: Files, live: Live, record: Record, layout: Layout, targets: seq<Str>, stale: seq<Str>, id: Str,
                ids: set<Str>)
    requires Known(files, live, layout, ids) && record.id in ids && layout.byId(record.id).Some? && id in ids
      && layout.byId(id).Some?
    requires layout.byId(record.id).value in targets && layout.byId(id).value !in stale
    requires layout.byId(id).value in targets ==> layout.byId(id) == layout.byId(record.id)
    ensures
      var after, next := Without(With(files, targets, record), stale), live[record.id := record];
      (layout.byId(id).value in after <==> id in next) && (id in next ==> after[layout.byId(id).value] == next[id])
  {}

  lemma DeleteKnown(files: Files, live: Live, id: Str, layout: Layout, gone: seq<Str>, ids: set<Str>)
    requires Known(files, live, layout, ids) && id in ids && layout.byId(id).Some? && layout.byId(id).value in gone
    requires forall i: Str :: layout.byId(i).Some? && layout.byId(i).value in gone ==> layout.byId(i) == layout.byId(id)
    ensures Known(Without(files, gone), live - {id}, layout, ids)
  {}

  // ---------------------------------------------------------------------------
  // What a record queues
  // ---------------------------------------------------------------------------

  /** The indexes a record's earlier version must leave. */
  function Left(live: Live, record: Record, layout: Layout): seq<Str> {
    if record.id !in live || layout.canonical(live[record.id]).None? then []
    else if record.deleted || layout.canonical(live[record.id]) != layout.canonical(record)
      then [ScopeOf(live[record.id], layout)]
    else []
  }

  function ActionsOf(live: Live, record: Record, layout: Layout): Queue {
    if !Accepted(record, layout) then []
    else if record.deleted then RemoveFrom([layout.collection] + Left(live, record, layout), record.id)
    else
      var row := Upsert(record.id, Row(record.id, layout.canonical(record).value, record));
      RemoveFrom(Left(live, record, layout), record.id)
      + [(layout.collection, row), (ScopeOf(record, layout), row)]
  }

  lemma ScopesOfOne(path: Str, layout: Layout)
    ensures Scopes([path], layout) == [layout.scope(path)] && Scopes([], layout) == []
  {}

  lemma DeleteStep(st: State, live: Live, record: Record, layout: Layout, emitCanonical: bool, ids: set<Str>)
    requires Known(st.files, live, layout, ids) && record.id in ids && Accepted(record, layout) && record.deleted
    ensures Known(Step(st, record, layout, emitCanonical).files, Next(live, record, layout), layout, ids)
    ensures Step(st, record, layout, emitCanonical).queue == st.queue + ActionsOf(live, record, layout)
  {
    var id, aliasPath := record.id, layout.byId(record.id).value;
    PriorFacts(st.files, live, id, layout, ids);
    var prior := PriorOf(st.files, aliasPath, layout).value;
    var previous := if prior.canonical.Some? then [prior.canonical.value] else [];
    if previous != [] { ScopesOfOne(previous[0], layout); }
    assert Scopes(previous, layout) == Left(live, record, layout);
    DeleteKnown(st.files, live, id, layout, [aliasPath] + prior.lookups + previous, ids);
  }

  function TargetsOf(record: Record, layout: Layout, emitCanonical: bool): seq<Str>
    requires layout.byId(record.id).Some? && layout.canonical(record).Some? && layout.lookups(record).Some?
  {
    (if emitCanonical then [layout.canonical(record).value] else []) + [layout.byId(record.id).value]
      + layout.lookups(record).value
  }

  function StaleOf(record: Record, prior: Prior, layout: Layout): seq<Str>
    requires layout.canonical(record).Some? && layout.lookups(record).Some?
  {
    Kept(prior.lookups, layout.lookups(record).value) + Moved(prior, layout.canonical(record).value)
  }

  /** Among the by-id files, a write targets the record's own and deletes none. */
  lemma TargetsAndStale(record: Record, prior: Prior, layout: Layout, emitCanonical: bool)
    requires GoodLayout(layout) && layout.byId(record.id).Some? && layout.canonical(record).Some?
      && layout.lookups(record).Some?
    requires forall id: Str :: layout.byId(id).Some? ==>
      layout.byId(id).value !in prior.lookups && layout.byId(id) != prior.canonical
    ensures
      var targets, stale := TargetsOf(record, layout, emitCanonical), StaleOf(record, prior, layout);
      && layout.byId(record.id).value in targets
      && (forall id: Str :: layout.byId(id).Some? && layout.byId(id).value in targets ==>
          layout.byId(id) == layout.byId(record.id))
      && (forall id: Str :: layout.byId(id).Some? ==> layout.byId(id).value !in stale)
  {
    KeptMembers(prior.lookups, layout.lookups(record).value);
  }

  lemma LeftMoved(live: Live, record: Record, prior: Prior, layout: Layout)
    requires layout.canonical(record).Some? && !record.deleted
    requires prior.canonical == if record.id in live then layout.canonical(live[record.id]) else None
    ensures Scopes(Moved(prior, layout.canonical(record).value), layout) == Left(live, record, layout)
  {
    if prior.canonical.Some? { ScopesOfOne(prior.canonical.value, layout); }
  }

  lemma LookupsKnown(files: Files, live: Live, record: Record, layout: Layout, ids: set<Str>)
    requires Known(files, live, layout, ids) && record.id in ids
    requires layout.byId(record.id).Some? && layout.canonical(record).Some?
    ensures layout.lookups(record).Some?
  {
    assert layout.byId(Trim(record.id)).Some?;
  }

  /** What a write does once its earlier version is known. */
  lemma WriteUnfolds(st: State, record: Record, prior: Prior, layout: Layout, emitCanonical: bool)
    requires Accepted(record, layout) && !record.deleted && layout.lookups(record).Some?
    requires PriorOf(st.files, layout.byId(record.id).value, layout) == Some(prior)
    ensures
      var row := Upsert(record.id, Row(record.id, layout.canonical(record).value, record));
      var after := Step(st, record, layout, emitCanonical);
      && after.files
        == Without(With(st.files, TargetsOf(record, layout, emitCanonical), record), StaleOf(record, prior, layout))
      && after.queue == st.queue + RemoveFrom(Scopes(Moved(prior, layout.canonical(record).value), layout), record.id)
           + [(layout.collection, row), (ScopeOf(record, layout), row)]
  {}

  lemma WriteStep(st: State, live: Live, record: Record, layout: Layout, emitCanonical: bool, ids: set<Str>)
    requires Known(st.files, live, layout, ids) && record.id in ids && Accepted(record, layout) && !record.deleted
    ensures Known(Step(st, record, layout, emitCanonical).files, Next(live, record, layout), layout, ids)
    ensures Step(st, record, layout, emitCanonical).queue == st.queue + ActionsOf(live, record, layout)
  {
    LookupsKnown(st.files, live, record, layout, ids);
    PriorFacts(st.files, live, record.id, layout, ids);
    var prior := PriorOf(st.files, layout.byId(record.id).value, layout).value;
    WriteUnfolds(st, record, prior, layout, emitCanonical);
    LeftMoved(live, record, prior, layout);
    TargetsAndStale(record, prior, layout, emitCanonical);
    WriteKnown(st.files, live, record, layout, TargetsOf(record, layout, emitCanonical), StaleOf(record, prior, layout),
               ids);
    var row := Upsert(record.id, Row(record.id, layout.canonical(record).value, record));
    QueueGrows(st.queue, RemoveFrom(Left(live, record, layout), record.id),
               [(layout.collection, row), (ScopeOf(record, layout), row)]);
  }

  lemma QueueGrows(queue: Queue, removes: Queue, rows: Queue)
    ensures queue + removes + rows == queue + (removes + rows)
  {}

  lemma SkippedStep(st: State, live: Live, record: Record, layout: Layout, emitCanonical: bool, ids: set<Str>)
    requires Known(st.files, live, layout, ids) && record.id in ids && !Accepted(record, layout)
    ensures Step(st, record, layout, emitCanonical).files == st.files
    ensures Step(st, record, layout, emitCanonical).queue == st.queue
  {
    if record.id != [] && layout.byId(record.id).Some? { PriorFacts(st.files, live, record.id, layout, ids); }
  }

  /** One record: the by-id files keep holding the live records, and the queue grows by what the record calls for. */
  lemma StepKnown(st: State, live: Live, record: Record, layout: Layout, emitCanonical: bool, ids: set<Str>)
    requires Known(st.files, live, layout, ids) && record.id in ids
    ensures Known(Step(st, record, layout, emitCanonical).files, Next(live, record, layout), layout, ids)
    ensures Step(st, record, layout, emitCanonical).queue == st.queue + ActionsOf(live, record, layout)
  {
    if !Accepted(record, layout) {
      SkippedStep(st, live, record, layout, emitCanonical, ids);
    } else if record.deleted {
      DeleteStep(st, live, record, layout, emitCanonical, ids);
    } else {
      WriteStep(st, live, record, layout, emitCanonical, ids);
    }
  }

  // ---------------------------------------------------------------------------
  // The indexes
  // ---------------------------------------------------------------------------

  function Find(table: Table<Row>, id: Str): Option<Row> { if id in table then Some(table[id]) else None }

  /** The index at a path is about this record: it is the collection index, or the one beside its file. */
  predicate Covers(path: Str, record: Record, layout: Layout) {
    layout.canonical(record).Some? && (path == layout.collection || path == ScopeOf(record, layout))
  }

  /** The row the index at a path should have for an id. */
  function Expected(live: Live, path: Str, id: Str, layout: Layout): Option<Row> {
    if id in live && Covers(path, live[id], layout) then Some(Row(id, layout.canonical(live[id]).value, live[id]))
    else None
  }

  /** The collection index lists the live records; each scoped index lists those beside it, and no others. */
  ghost predicate Partition(tables: Tables, live: Live, layout: Layout) {
    forall p: Str, id: Str :: Find(TableAt(tables, p), id) == Expected(live, p, id, layout)
  }

  /** The same of the indexes as they would be had the queued actions taken effect in order. */
  ghost predicate Ordered(tables: Tables, queue: Queue, live: Live, layout: Layout) {
    forall p: Str, id: Str :: Find(InOrder(TableAt(tables, p), OnPath(queue, p)), id) == Expected(live, p, id, layout)
  }

  lemma {:induction false} OnPathConcat(a: Queue, b: Queue, path: Str)
    ensures OnPath(a + b, path) == OnPath(a, path) + OnPath(b, path)
  {
    if b == [] {
      assert a + b == a;
    } else {
      var front := b[..|b| - 1];
      assert (a + b)[..|a + b| - 1] == a + front;
      OnPathConcat(a, front, path);
    }
  }

  /** What a short list of actions on one id does to an index. */
  lemma {:induction false} ActionsOnId(table: Table<Row>, actions: seq<Action<Row>>, id: Str, other: Str)
    requires forall i :: 0 <= i < |actions| ==> actions[i].id == id
    ensures other != id ==> Find(InOrder(table, actions), other) == Find(table, other)
    ensures Find(InOrder(table, actions), id) ==
      if actions == [] then Find(table, id)
      else if actions[|actions| - 1].Upsert? then Some(actions[|actions| - 1].row) else None
  {
    if actions == [] {
    } else {
      ActionsOnId(table, actions[..|actions| - 1], id, other);
    }
  }

  lemma OneOnPath(x: (Str, Action<Row>), path: Str)
    ensures OnPath([x], path) == if x.0 == path then [x.1] else []
  {
    assert [x] == [] + [x];
    OnPathSnoc([], x, path);
  }

  lemma TwoOnPath(x: (Str, Action<Row>), y: (Str, Action<Row>), path: Str)
    ensures OnPath([x, y], path) == (if x.0 == path then [x.1] else []) + (if y.0 == path then [y.1] else [])
  {
    assert [x, y] == [x] + [y];
    OneOnPath(x, path);
    OnPathSnoc([x], y, path);
  }

  /** What a record queues for the index at a path, in its last action. */
  lemma DeleteOnPath(live: Live, record: Record, layout: Layout, path: Str)
    requires Accepted(record, layout) && record.deleted
    ensures
      var actions := OnPath(ActionsOf(live, record, layout), path);
      && (forall i :: 0 <= i < |actions| ==> actions[i] == Remove(record.id))
      && (actions != [] <==> path == layout.collection || path in Left(live, record, layout))
  {
    var left, first := Left(live, record, layout), (layout.collection, Remove(record.id));
    FirstRemove(layout.collection, left, record.id);
    OnPathConcat([first], RemoveFrom(left, record.id), path);
    OneOnPath(first, path);
    RemovesOnPath(left, record.id, path);
  }

  lemma FirstRemove(first: Str, rest: seq<Str>, id: Str)
    ensures RemoveFrom([first] + rest, id) == [(first, Remove(id))] + RemoveFrom(rest, id)
  {}

  /** Removes of an id, and, when the index is written, its row last. */
  ghost predicate RowLast(actions: seq<Action<Row>>, id: Str, row: Row, written: bool) {
    && (forall i :: 0 <= i < |actions| ==> actions[i] == Remove(id) || (written && actions[i] == Upsert(id, row)))
    && (written ==> actions != [] && actions[|actions| - 1] == Upsert(id, row))
  }

  lemma RemovesAndRows(left: seq<Str>, id: Str, collection: Str, scope: Str, row: Row, path: Str)
    requires |left| <= 1
    ensures
      var queue := RemoveFrom(left, id) + [(collection, Upsert(id, row)), (scope, Upsert(id, row))];
      var written := path == collection || path == scope;
      && RowLast(OnPath(queue, path), id, row, written)
      && (!written ==> (OnPath(queue, path) != [] <==> path in left))
  {
    var first, second := (collection, Upsert(id, row)), (scope, Upsert(id, row));
    OnPathConcat(RemoveFrom(left, id), [first, second], path);
    RowsOnPath(first, second, path, Upsert(id, row));
    RemovesOnPath(left, id, path);
    RemovesThenRows(OnPath(RemoveFrom(left, id), path), OnPath([first, second], path), Remove(id), Upsert(id, row));
  }

  lemma RowsOnPath(first: (Str, Action<Row>), second: (Str, Action<Row>), path: Str, row: Action<Row>)
    requires first.1 == second.1 == row
    ensures forall i :: 0 <= i < |OnPath([first, second], path)| ==> OnPath([first, second], path)[i] == row
    ensures OnPath([first, second], path) != [] <==> path == first.0 || path == second.0
  {
    TwoOnPath(first, second, path);
  }

  lemma RemovesOnPath(left: seq<Str>, id: Str, path: Str)
    requires |left| <= 1
    ensures OnPath(RemoveFrom(left, id), path) == if path in left then [Remove(id)] else []
  {
    if left != [] {
      assert RemoveFrom(left, id) == [(left[0], Remove(id))];
      OneOnPath((left[0], Remove(id)), path);
    }
  }

  lemma WriteOnPath(live: Live, record: Record, layout: Layout, path: Str)
    requires Accepted(record, layout) && !record.deleted
    ensures
      var actions := OnPath(ActionsOf(live, record, layout), path);
      && RowLast(actions, record.id, Row(record.id, layout.canonical(record).value, record),
                 Covers(path, record, layout))
      && (!Covers(path, record, layout) ==> (actions != [] <==> path in Left(live, record, layout)))
  {
    RemovesAndRows(Left(live, record, layout), record.id, layout.collection, ScopeOf(record, layout),
                   Row(record.id, layout.canonical(record).value, record), path);
  }

  /** A list of removes followed by a list of rows ends in a row, if it has one. */
  lemma RemovesThenRows(removes: seq<Action<Row>>, rows: seq<Action<Row>>, remove: Action<Row>, row: Action<Row>)
    requires forall i :: 0 <= i < |removes| ==> removes[i] == remove
    requires forall i :: 0 <= i < |rows| ==> rows[i] == row
    ensures forall i :: 0 <= i < |removes + rows| ==>
      (removes + rows)[i] == remove || (rows != [] && (removes + rows)[i] == row)
    ensures rows != [] ==> removes + rows != [] && (removes + rows)[|removes + rows| - 1] == row
    ensures rows == [] ==> removes + rows == removes
  {}

  lemma EffectOfDelete(table: Table<Row>, files: Files, live: Live, record: Record, layout: Layout, p: Str, id: Str,
                       ids: set<Str>)
    requires Known(files, live, layout, ids) && Accepted(record, layout) && record.deleted
    requires Find(table, id) == Expected(live, p, id, layout)
    ensures Find(InOrder(table, OnPath(ActionsOf(live, record, layout), p)), id)
      == Expected(Next(live, record, layout), p, id, layout)
  {
    DeleteOnPath(live, record, layout, p);
    ActionsOnId(table, OnPath(ActionsOf(live, record, layout), p), record.id, id);
  }

  lemma EffectOfWrite(table: Table<Row>, files: Files, live: Live, record: Record, layout: Layout, p: Str, id: Str,
                      ids: set<Str>)
    requires Known(files, live, layout, ids) && Accepted(record, layout) && !record.deleted
    requires Find(table, id) == Expected(live, p, id, layout)
    ensures Find(InOrder(table, OnPath(ActionsOf(live, record, layout), p)), id)
      == Expected(Next(live, record, layout), p, id, layout)
  {
    WriteOnPath(live, record, layout, p);
    ActionsOnId(table, OnPath(ActionsOf(live, record, layout), p), record.id, id);
  }

  lemma StepOrderedAt(tables: Tables, queue: Queue, files: Files, live: Live, record: Record, layout: Layout, p: Str,
                      id: Str, ids: set<Str>)
    requires Known(files, live, layout, ids) && record.id in ids && Ordered(tables, queue, live, layout)
    ensures Find(InOrder(TableAt(tables, p), OnPath(queue + ActionsOf(live, record, layout), p)), id)
      == Expected(Next(live, record, layout), p, id, layout)
  {
    var table, acts := InOrder(TableAt(tables, p), OnPath(queue, p)), ActionsOf(live, record, layout);
    OnPathConcat(queue, acts, p);
    InOrderConcat(TableAt(tables, p), OnPath(queue, p), OnPath(acts, p));
    assert Find(table, id) == Expected(live, p, id, layout);
    if !Accepted(record, layout) {
      assert InOrder(table, OnPath(acts, p)) == table;
    } else if record.deleted {
      EffectOfDelete(table, files, live, record, layout, p, id, ids);
    } else {
      EffectOfWrite(table, files, live, record, layout, p, id, ids);
    }
  }

  /** One record keeps the indexes, taken in order, a partition of the live records. */
  lemma StepOrdered(tables: Tables, queue: Queue, files: Files, live: Live, record: Record, layout: Layout,
                    ids: set<Str>)
    requires Known(files, live, layout, ids) && record.id in ids && Ordered(tables, queue, live, layout)
    ensures Ordered(tables, queue + ActionsOf(live, record, layout), Next(live, record, layout), layout)
  {
    forall p: Str, id: Str
      ensures Find(InOrder(TableAt(tables, p), OnPath(queue + ActionsOf(live, record, layout), p)), id)
        == Expected(Next(live, record, layout), p, id, layout)
    {
      StepOrderedAt(tables, queue, files, live, record, layout, p, id, ids);
    }
  }

  // ---------------------------------------------------------------------------
  // Batches
  // ---------------------------------------------------------------------------

  function LiveBatch(live: Live, records: seq<Record>, layout: Layout): Live {
    if records == [] then live
    else Next(LiveBatch(live, records[..|records| - 1], layout), records[|records| - 1], layout)
  }

  predicate GoodBatch(records: seq<Record>, ids: set<Str>) {
    forall i :: 0 <= i < |records| ==> records[i].id in ids
  }

  lemma {:induction false} BatchOrdered(st: State, tables: Tables, live: Live, records: seq<Record>, layout: Layout,
                                        emitCanonical: bool, ids: set<Str>)
    requires Known(st.files, live, layout, ids) && GoodBatch(records, ids) && Ordered(tables, st.queue, live, layout)
    ensures
      var end := Batch(st, records, layout, emitCanonical);
      && Known(end.files, LiveBatch(live, records, layout), layout, ids)
      && Ordered(tables, end.queue, LiveBatch(live, records, layout), layout)
  {
    if records == [] {
    } else {
      var front, last := records[..|records| - 1], records[|records| - 1];
      BatchOrdered(st, tables, live, front, layout, emitCanonical, ids);
      var mid := Batch(st, front, layout, emitCanonical);
      StepKnown(mid, LiveBatch(live, front, layout), last, layout, emitCanonical, ids);
      StepOrdered(tables, mid.queue, mid.files, LiveBatch(live, front, layout), last, layout, ids);
    }
  }

  /** The record upserts a row into the index at a path. */
  predicate Writes(record: Record, path: Str, layout: Layout) {
    Accepted(record, layout) && !record.deleted && Covers(path, record, layout)
  }

  /** Some record of the batch upserts this id into the index at a path. */
  ghost predicate SomeWrite(records: seq<Record>, path: Str, id: Str, layout: Layout) {
    exists i :: 0 <= i < |records| && Writes(records[i], path, layout) && records[i].id == id
  }

  lemma SomeWriteSnoc(front: seq<Record>, last: Record, path: Str, id: Str, layout: Layout)
    ensures SomeWrite(front + [last], path, id, layout)
      <==> SomeWrite(front, path, id, layout) || (Writes(last, path, layout) && last.id == id)
  {
    var records := front + [last];
    assert records[|front|] == last;
    if i :| 0 <= i < |front| && Writes(front[i], path, layout) && front[i].id == id {
      assert records[i] == front[i];
    }
  }

  lemma {:induction false} FilesOf(st: State, live: Live, records: seq<Record>, layout: Layout, emitCanonical: bool,
                                   ids: set<Str>)
    requires Known(st.files, live, layout, ids) && GoodBatch(records, ids)
    ensures Known(Batch(st, records, layout, emitCanonical).files, LiveBatch(live, records, layout), layout, ids)
  {
    if records == [] {
    } else {
      var front, last := records[..|records| - 1], records[|records| - 1];
      FilesOf(st, live, front, layout, emitCanonical, ids);
      StepKnown(Batch(st, front, layout, emitCanonical), LiveBatch(live, front, layout), last, layout, emitCanonical,
                ids);
    }
  }

  /** What the last record of a batch queues. */
  lemma QueueSnoc(st: State, live: Live, records: seq<Record>, layout: Layout, emitCanonical: bool, ids: set<Str>)
    requires Known(st.files, live, layout, ids) && GoodBatch(records, ids) && records != []
    ensures
      var front, last := records[..|records| - 1], records[|records| - 1];
      Batch(st, records, layout, emitCanonical).queue
      == Batch(st, front, layout, emitCanonical).queue + ActionsOf(LiveBatch(live, front, layout), last, layout)
  {
    var front, last := records[..|records| - 1], records[|records| - 1];
    FilesOf(st, live, front, layout, emitCanonical, ids);
    StepKnown(Batch(st, front, layout, emitCanonical), LiveBatch(live, front, layout), last, layout, emitCanonical,
              ids);
  }

  /** The upserts queued for an index are those of the records that write to it. */
  lemma {:induction false} QueuedUpserts(st: State, live: Live, records: seq<Record>, layout: Layout,
                                         emitCanonical: bool, path: Str, id: Str, ids: set<Str>)
    requires Known(st.files, live, layout, ids) && GoodBatch(records, ids) && st.queue == []
    ensures id in Upserts(OnPath(Batch(st, records, layout, emitCanonical).queue, path))
      <==> SomeWrite(records, path, id, layout)
  {
    if records == [] {
    } else {
      var front, last := records[..|records| - 1], records[|records| - 1];
      QueuedUpserts(st, live, front, layout, emitCanonical, path, id, ids);
      QueueSnoc(st, live, records, layout, emitCanonical, ids);
      LastUpsert(Batch(st, front, layout, emitCanonical).queue, LiveBatch(live, front, layout), last, layout, path, id);
      assert records == front + [last];
      SomeWriteSnoc(front, last, path, id, layout);
    }
  }

  lemma {:induction false} UpsertsConcat(a: seq<Action<Row>>, b: seq<Action<Row>>, id: Str)
    ensures id in Upserts(a + b) <==> id in Upserts(a) || id in Upserts(b)
  {
    if b == [] {
      assert a + b == a;
    } else {
      assert (a + b)[..|a + b| - 1] == a + b[..|b| - 1];
      UpsertsConcat(a, b[..|b| - 1], id);
    }
  }

  lemma LastUpsert(queue: Queue, live: Live, record: Record, layout: Layout, path: Str, id: Str)
    ensures id in Upserts(OnPath(queue + ActionsOf(live, record, layout), path))
      <==> id in Upserts(OnPath(queue, path)) || (Writes(record, path, layout) && record.id == id)
  {
    var actions := OnPath(ActionsOf(live, record, layout), path);
    OnPathConcat(queue, ActionsOf(live, record, layout), path);
    UpsertsConcat(OnPath(queue, path), actions, id);
    UpsertsOf(actions, id);
    if Accepted(record, layout) {
      if record.deleted { DeleteOnPath(live, record, layout, path); } else { WriteOnPath(live, record, layout, path); }
    }
  }

  /** A written record that is not live, or not beside the same index, at the end of the batch. */
  predicate Unsettled(record: Record, after: Live, layout: Layout) {
    && Accepted(record, layout) && !record.deleted
    && !(record.id in after && layout.canonical(after[record.id]).Some?
         && ScopeOf(after[record.id], layout) == ScopeOf(record, layout))
  }

  /**
   * Every record written in the batch is live at its end, beside the same index: no record is
   * deleted after, or moved to another repository than, one of its writes in the batch.
   */
  ghost predicate SettledBatch(records: seq<Record>, after: Live, layout: Layout) {
    forall i :: 0 <= i < |records| ==> !Unsettled(records[i], after, layout)
  }

  /** A settled batch queues for each index something that a flush does as if in order. */
  lemma SettledFlush(st: State, tables: Tables, live: Live, records: seq<Record>, layout: Layout, emitCanonical: bool,
                     path: Str, ids: set<Str>)
    requires Known(st.files, live, layout, ids) && GoodBatch(records, ids) && st.queue == []
      && Ordered(tables, [], live, layout)
    requires SettledBatch(records, LiveBatch(live, records, layout), layout)
    ensures
      var actions := OnPath(Batch(st, records, layout, emitCanonical).queue, path);
      Flushed(TableAt(tables, path), actions) == InOrder(TableAt(tables, path), actions)
  {
    BatchOrdered(st, tables, live, records, layout, emitCanonical, ids);
    var queue, after := Batch(st, records, layout, emitCanonical).queue, LiveBatch(live, records, layout);
    forall id: Str | id in Upserts(OnPath(queue, path)) ensures SomeWrite(records, path, id, layout) {
      QueuedUpserts(st, live, records, layout, emitCanonical, path, id, ids);
    }
    SettledActions(tables, queue, after, records, layout, path);
  }

  lemma SettledActions(tables: Tables, queue: Queue, after: Live, records: seq<Record>, layout: Layout, path: Str)
    requires Ordered(tables, queue, after, layout) && SettledBatch(records, after, layout)
    requires forall id: Str :: id in Upserts(OnPath(queue, path)) ==> SomeWrite(records, path, id, layout)
    ensures Flushed(TableAt(tables, path), OnPath(queue, path)) == InOrder(TableAt(tables, path), OnPath(queue, path))
  {
    var actions, table := OnPath(queue, path), TableAt(tables, path);
    forall i | 0 <= i < |actions| && actions[i].Upsert? ensures !RemovedLast(actions, actions[i].id) {
      var id := actions[i].id;
      UpsertsOf(actions, id);
      assert SomeWrite(records, path, id, layout);
      assert Find(InOrder(table, actions), id) == Expected(after, path, id, layout);
      InOrderOf(table, actions, id);
    }
    FlushIsInOrder(table, actions);
  }

  lemma FlushedHas(table: Table<Row>, actions: seq<Action<Row>>, id: Str)
    requires id in Upserts(actions)
    ensures Find(Flushed(table, actions), id).Some?
  {}

  lemma UnsettledRow(record: Record, after: Live, layout: Layout)
    requires GoodLayout(layout) && Unsettled(record, after, layout)
    ensures Writes(record, ScopeOf(record, layout), layout)
    ensures Expected(after, ScopeOf(record, layout), record.id, layout).None?
  {}

  /** An unsettled write leaves a row in an index that should not have it. */
  lemma UnsettledFlush(st: State, after: Tables, tables: Tables, live: Live, records: seq<Record>, layout: Layout,
                       emitCanonical: bool, i: nat, ids: set<Str>)
    requires Known(st.files, live, layout, ids) && GoodBatch(records, ids) && st.queue == []
    requires FlushedAll(tables, after, Batch(st, records, layout, emitCanonical).queue, Flushing())
    requires i < |records| && Unsettled(records[i], LiveBatch(live, records, layout), layout)
    ensures !Partition(after, LiveBatch(live, records, layout), layout)
  {
    var queue, next := Batch(st, records, layout, emitCanonical).queue, LiveBatch(live, records, layout);
    var id, path := records[i].id, ScopeOf(records[i], layout);
    UnsettledRow(records[i], next, layout);
    QueuedUpserts(st, live, records, layout, emitCanonical, path, id, ids);
    FlushedHas(TableAt(tables, path), OnPath(queue, path), id);
    assert TableAt(after, path) == Flushing()(TableAt(tables, path), OnPath(queue, path));
    assert Find(TableAt(after, path), id) != Expected(next, path, id, layout);
  }

  /**
   * After a batch without failures the scoped indexes again partition the collection index, each
   * live id being a row of exactly the index beside its file, if and only if the batch is settled.
   */
  lemma BatchKeepsPartition(files: Files, before: Tables, after: Tables, live: Live, records: seq<Record>,
                            layout: Layout, emitCanonical: bool, ids: set<Str>)
    requires Known(files, live, layout, ids) && GoodBatch(records, ids) && Partition(before, live, layout)
    requires FlushedAll(before, after, Batch(State(files, [], 0, 0, []), records, layout, emitCanonical).queue,
                        Flushing())
    ensures Known(Batch(State(files, [], 0, 0, []), records, layout, emitCanonical).files,
                  LiveBatch(live, records, layout), layout, ids)
    ensures Partition(after, LiveBatch(live, records, layout), layout)
      <==> SettledBatch(records, LiveBatch(live, records, layout), layout)
  {
    var st, next := State(files, [], 0, 0, []), LiveBatch(live, records, layout);
    var queue := Batch(st, records, layout, emitCanonical).queue;
    NothingQueued(before, live, layout);
    BatchOrdered(st, before, live, records, layout, emitCanonical, ids);
    if SettledBatch(records, next, layout) {
      forall p: Str, id: Str ensures Find(TableAt(after, p), id) == Expected(next, p, id, layout) {
        SettledFlush(st, before, live, records, layout, emitCanonical, p, ids);
        assert TableAt(after, p) == Flushed(TableAt(before, p), OnPath(queue, p));
        assert Find(InOrder(TableAt(before, p), OnPath(queue, p)), id) == Expected(next, p, id, layout);
      }
    } else {
      var i :| 0 <= i < |records| && Unsettled(records[i], next, layout);
      UnsettledFlush(st, after, before, live, records, layout, emitCanonical, i, ids);
    }
  }

  lemma NothingQueued(tables: Tables, live: Live, layout: Layout)
    requires Partition(tables, live, layout)
    ensures Ordered(tables, [], live, layout)
  {
    forall p: Str, id: Str
      ensures Find(InOrder(TableAt(tables, p), OnPath([], p)), id) == Expected(live, p, id, layout)
    {
      assert Find(TableAt(tables, p), id) == Expected(live, p, id, layout);
    }
  }

  // ---------------------------------------------------------------------------
  // Runs
  // ---------------------------------------------------------------------------

  datatype Store = Store(files: Files, tables: Tables)

  function FlushTables(tables: Tables, queue: Queue, merge: Merger): Tables {
    map p | p in tables.Keys + QueuedPaths(queue) :: merge(TableAt(tables, p), OnPath(queue, p))
  }

  /** The flush of a batch leaves exactly these index files. */
  lemma FlushTablesAll(before: Tables, after: Tables, queue: Queue, merge: Merger)
    requires KeepsWhenEmpty(merge)
    ensures FlushedAll(before, after, queue, merge) <==> after == FlushTables(before, queue, merge)
  {
    var flushed := FlushTables(before, queue, merge);
    forall p ensures p in flushed <==> p in before || OnPath(queue, p) != [] { OnQueuedPath(queue, p); }
    forall p ensures TableAt(flushed, p) == merge(TableAt(before, p), OnPath(queue, p)) {}
    if FlushedAll(before, after, queue, merge) {
      forall p | p in after ensures after[p] == flushed[p] { assert TableAt(after, p) == TableAt(flushed, p); }
    }
  }

  function EmitBatch(store: Store, records: seq<Record>, layout: Layout, emitCanonical: bool): Store {
    var end := Batch(State(store.files, [], 0, 0, []), records, layout, emitCanonical);
    Store(end.files, FlushTables(store.tables, end.queue, Flushing()))
  }

  function Run(batches: seq<seq<Record>>, layout: Layout, emitCanonical: bool): Store {
    if batches == [] then Store(map[], map[])
    else EmitBatch(Run(batches[..|batches| - 1], layout, emitCanonical), batches[|batches| - 1], layout, emitCanonical)
  }

  function LiveRun(batches: seq<seq<Record>>, layout: Layout): Live {
    if batches == [] then map[]
    else LiveBatch(LiveRun(batches[..|batches| - 1], layout), batches[|batches| - 1], layout)
  }

  ghost predicate GoodRun(batches: seq<seq<Record>>, layout: Layout, ids: set<Str>) {
    forall i :: 0 <= i < |batches| ==>
      GoodBatch(batches[i], ids)
        && SettledBatch(batches[i], LiveBatch(LiveRun(batches[..i], layout), batches[i], layout), layout)
  }

  lemma {:induction false} RunPartition(batches: seq<seq<Record>>, layout: Layout, emitCanonical: bool, ids: set<Str>)
    requires GoodLayout(layout) && Consistent(ids, layout) && GoodRun(batches, layout, ids)
    ensures
      var store := Run(batches, layout, emitCanonical);
      Known(store.files, LiveRun(batches, layout), layout, ids)
        && Partition(store.tables, LiveRun(batches, layout), layout)
  {
    if batches == [] {
    } else {
      var front, last := batches[..|batches| - 1], batches[|batches| - 1];
      forall i | 0 <= i < |front|
        ensures GoodBatch(front[i], ids)
          && SettledBatch(front[i], LiveBatch(LiveRun(front[..i], layout), front[i], layout), layout)
      {
        assert front[..i] == batches[..i];
      }
      RunPartition(front, layout, emitCanonical, ids);
      var store := Run(front, layout, emitCanonical);
      var queue := Batch(State(store.files, [], 0, 0, []), last, layout, emitCanonical).queue;
      FlushingKeepsWhenEmpty();
      FlushTablesAll(store.tables, FlushTables(store.tables, queue, Flushing()), queue, Flushing());
      BatchKeepsPartition(store.files, store.tables, FlushTables(store.tables, queue, Flushing()),
                          LiveRun(front, layout), last, layout, emitCanonical, ids);
    }
  }

  // ---------------------------------------------------------------------------
  // The layout of pull requests and issues
  // ---------------------------------------------------------------------------

  lemma RootInjective(a: seq<Str>, b: seq<Str>)
    requires AllPlain(a) && AllPlain(b) && Root(a) == Root(b)
    ensures a == b
  {
    assert Plain(U("bitbucket"));
    JoinInjective([U("bitbucket")] + a, [U("bitbucket")] + b);
    assert a == ([U("bitbucket")] + a)[1..] && b == ([U("bitbucket")] + b)[1..];
  }

  lemma SegmentPlain(value: Str)
    requires Segment(value).Some?
    ensures Plain(Segment(value).value) && Plain(Segment(value).value + U(".json"))
  {
    EncodeAlphabet(Trim(value));
    assert Plain(U(".json"));
  }

  lemma LiteralsPlain(model: Model)
    ensures Plain(Collection(model)) && Plain(U("repositories")) && Plain(U("by-id")) && Plain(U("_index.json"))
  {}

  lemma BucketsPlain()
    ensures Plain(U("by-state")) && Plain(U("by-assignee")) && Plain(U("by-creator")) && Plain(U("by-priority"))
  {}

  lemma ByIdSegments(id: Str, model: Model) returns (segments: seq<Str>)
    requires ByIdPath(id, model).Some?
    ensures ByIdPath(id, model) == Some(Root(segments)) && AllPlain(segments) && |segments| == 3
    ensures segments[2] == Segment(id).value + U(".json")
  {
    LiteralsPlain(model);
    SegmentPlain(id);
    segments := [Collection(model), U("by-id"), Segment(id).value + U(".json")];
  }

  lemma ScopePlain(repository: Str, model: Model)
    requires ScopeOfRepository(repository, model).Some?
    ensures AllPlain(ScopeOfRepository(repository, model).value) && |ScopeOfRepository(repository, model).value| == 4
  {
    LiteralsPlain(model);
    var (workspace, slug) := SplitRepository(repository).value;
    SegmentPlain(workspace);
    SegmentPlain(slug);
  }

  lemma FilePlain(record: Record, model: Model, u: Unicode)
    requires FileNameOf(record, model, u).Some?
    ensures Plain(FileNameOf(record, model, u).value + U(".json"))
  {
    var title := match ReadString(record.title) case Some(t) => t case None => TypeName(model);
    SegmentPlain(SlugifyAlias(title, u) + U("__") + ReadString(record.number).value);
  }

  lemma CanonicalSegments(record: Record, model: Model, u: Unicode) returns (scope: seq<Str>, file: Str)
    requires CanonicalPath(record, model, u).Some?
    ensures ScopeSegments(record, model) == Some(scope) && AllPlain(scope) && |scope| == 4 && Plain(file)
    ensures CanonicalPath(record, model, u) == Some(Root(scope + [file]))
  {
    scope := ScopeSegments(record, model).value;
    ScopePlain(RepositoryOf(record).value, model);
    file := FileNameOf(record, model, u).value + U(".json");
    FilePlain(record, model, u);
  }

  lemma LookupSegments(bucket: Str, value: Option<Str>, id: Str, model: Model, u: Unicode, p: Str)
    returns (segments: seq<Str>)
    requires Plain(bucket) && LookupPath(bucket, value, id, model, u).Some?
      && p in LookupPath(bucket, value, id, model, u).value
    ensures p == Root(segments) && AllPlain(segments) && |segments| == 4
    ensures Segment(id).Some? && segments[3] == Segment(id).value + U(".json")
  {
    LiteralsPlain(model);
    var slug := SlugifyAlias(ReadString(value).value, u);
    SegmentPlain(slug);
    SegmentPlain(id);
    segments := [Collection(model), bucket, Segment(slug).value, Segment(id).value + U(".json")];
  }

  lemma LookupsSegments(record: Record, model: Model, u: Unicode, p: Str) returns (segments: seq<Str>)
    requires LookupPaths(record, model, u).Some? && p in LookupPaths(record, model, u).value
    ensures p == Root(segments) && AllPlain(segments) && |segments| == 4
    ensures Segment(Trim(record.id)).Some? && segments[3] == Segment(Trim(record.id)).value + U(".json")
  {
    BucketsPlain();
    var id := ReadString(Some(record.id)).value;
    if p in LookupPath(U("by-state"), record.state, id, model, u).value {
      segments := LookupSegments(U("by-state"), record.state, id, model, u, p);
    } else if p in LookupPath(U("by-assignee"), record.assignee, id, model, u).value {
      segments := LookupSegments(U("by-assignee"), record.assignee, id, model, u, p);
    } else if p in LookupPath(U("by-creator"), record.creator, id, model, u).value {
      segments := LookupSegments(U("by-creator"), record.creator, id, model, u, p);
    } else {
      segments := LookupSegments(U("by-priority"), record.priority, id, model, u, p);
    }
  }

  lemma {:induction false} JoinSnoc(segments: seq<Str>, last: Str)
    ensures Join(segments + [last]) == Join(segments) + [SLASH] + last
  {
    if segments == [] {
      assert [last][1..] == [] && [] + [last] == [last];
    } else {
      assert (segments + [last])[1..] == segments[1..] + [last];
      JoinSnoc(segments[1..], last);
    }
  }

  lemma RootSnoc(scope: seq<Str>, file: Str)
    ensures Root(scope + [file]) == Root(scope) + [SLASH] + file
  {
    assert [U("bitbucket")] + (scope + [file]) == ([U("bitbucket")] + scope) + [file];
    JoinSnoc([U("bitbucket")] + scope, file);
  }

  lemma IndexBeside(front: Str, file: Str)
    requires SLASH !in file
    ensures ScopedIndexPath(front + [SLASH] + file) == front + [SLASH] + U("_index.json")
  {
    LastSlashOf(front, file);
    assert (front + [SLASH] + file)[..|front|] == front;
    assert U("/_index.json") == [SLASH] + U("_index.json");
    assert front + ([SLASH] + U("_index.json")) == front + [SLASH] + U("_index.json");
  }

  /** The index beside a file in a repository is the repository's own. */
  lemma ScopedIndexOf(scope: seq<Str>, file: Str)
    requires Plain(file)
    ensures ScopedIndexPath(Root(scope + [file])) == Root(scope + [U("_index.json")])
  {
    RootSnoc(scope, file);
    RootSnoc(scope, U("_index.json"));
    IndexBeside(Root(scope), file);
  }

  /** Two records share a scoped index exactly when they are of one repository. */
  lemma SameScopeSameRepository(a: Record, b: Record, model: Model, u: Unicode)
    requires CanonicalPath(a, model, u).Some? && CanonicalPath(b, model, u).Some?
    ensures ScopeOf(a, LayoutOf(model, u)) == ScopeOf(b, LayoutOf(model, u))
      <==> ScopeSegments(a, model) == ScopeSegments(b, model)
  {
    var x, file := CanonicalSegments(a, model, u);
    var y, other := CanonicalSegments(b, model, u);
    ScopedIndexOf(x, file);
    ScopedIndexOf(y, other);
    LiteralsPlain(model);
    if Root(x + [U("_index.json")]) == Root(y + [U("_index.json")]) {
      RootInjective(x + [U("_index.json")], y + [U("_index.json")]);
      assert x == (x + [U("_index.json")])[..4] && y == (y + [U("_index.json")])[..4];
    }
  }

  lemma ByIdInjective(a: Str, b: Str, model: Model)
    requires ByIdPath(a, model).Some? && ByIdPath(a, model) == ByIdPath(b, model)
    ensures Trim(a) == Trim(b)
  {
    var x := ByIdSegments(a, model);
    var y := ByIdSegments(b, model);
    RootInjective(x, y);
    var i, j := Segment(a).value, Segment(b).value;
    assert i == x[2][..|i|] && j == y[2][..|j|] && |x[2]| == |i| + 5 && |y[2]| == |j| + 5;
    EncodeInjective(Trim(a), Trim(b));
  }

  lemma CanonicalApart(record: Record, id: Str, model: Model, u: Unicode)
    requires CanonicalPath(record, model, u).Some?
    ensures CanonicalPath(record, model, u) != ByIdPath(id, model)
    ensures ScopedIndexPath(CanonicalPath(record, model, u).value) != CollectionIndexPath(model)
  {
    var scope, file := CanonicalSegments(record, model, u);
    ScopedIndexOf(scope, file);
    LiteralsPlain(model);
    var index := [Collection(model), U("_index.json")];
    if Root(scope + [U("_index.json")]) == Root(index) { RootInjective(scope + [U("_index.json")], index); }
    if ByIdPath(id, model).Some? {
      var segments := ByIdSegments(id, model);
      if Root(scope + [file]) == Root(segments) { RootInjective(scope + [file], segments); }
    }
  }

  lemma LookupsApart(record: Record, id: Str, model: Model, u: Unicode)
    requires LookupPaths(record, model, u).Some? && ByIdPath(id, model).Some?
    ensures ByIdPath(id, model).value !in LookupPaths(record, model, u).value
  {
    var x := ByIdSegments(id, model);
    if ByIdPath(id, model).value in LookupPaths(record, model, u).value {
      var y := LookupsSegments(record, model, u, ByIdPath(id, model).value);
      RootInjective(x, y);
    }
  }

  lemma CanonicalNotLookup(record: Record, other: Record, model: Model, u: Unicode)
    requires CanonicalPath(record, model, u).Some? && LookupPaths(other, model, u).Some?
    ensures CanonicalPath(record, model, u).value !in LookupPaths(other, model, u).value
  {
    var scope, file := CanonicalSegments(record, model, u);
    if CanonicalPath(record, model, u).value in LookupPaths(other, model, u).value {
      var segments := LookupsSegments(other, model, u, CanonicalPath(record, model, u).value);
      RootInjective(scope + [file], segments);
    }
  }

  /** An alias slug is a segment that stands for itself. */
  lemma SlugSegment(text: Str, u: Unicode)
    ensures Segment(SlugifyAlias(text, u)) == Some(SlugifyAlias(text, u))
  {
    var slug := SlugifyAlias(text, u);
    SlugifyAliasShape(text, u);
    TrimOfTight(slug);
    EncodeUnreserved(slug);
    assert slug[0] != DOT;
  }

  lemma LookupPrints(bucket: Str, value: Option<Str>, id: Str, model: Model, u: Unicode)
    ensures LookupPath(bucket, value, id, model, u).Some? <==> ReadString(value).None? || Segment(id).Some?
  {
    if ReadString(value).Some? { SlugSegment(ReadString(value).value, u); }
  }

  predicate Labelled(record: Record) {
    ReadString(record.state).Some? || ReadString(record.assignee).Some? || ReadString(record.creator).Some?
    || ReadString(record.priority).Some?
  }

  /**
   * A record with an id has lookup paths unless it has a label and its trimmed id does not print: an
   * untrimmed `.` or `..`.
   */
  lemma LookupsPrint(record: Record, model: Model, u: Unicode)
    requires Trim(record.id) != []
    ensures LookupPaths(record, model, u).Some? <==> !Labelled(record) || Segment(Trim(record.id)).Some?
  {
    TrimTwice(record.id);
    var id := Trim(record.id);
    LookupPrints(U("by-state"), record.state, id, model, u);
    LookupPrints(U("by-assignee"), record.assignee, id, model, u);
    LookupPrints(U("by-creator"), record.creator, id, model, u);
    LookupPrints(U("by-priority"), record.priority, id, model, u);
  }

  lemma LayoutIsGood(model: Model, u: Unicode)
    ensures GoodLayout(LayoutOf(model, u)) && CanonicalApartFromLookups(LayoutOf(model, u))
  {
    var layout := LayoutOf(model, u);
    forall a: Str, b: Str | layout.byId(a).Some? && layout.byId(a) == layout.byId(b) ensures Trim(a) == Trim(b) {
      ByIdInjective(a, b, model);
    }
    forall r: Record, q: Record | layout.canonical(r).Some? && layout.lookups(q).Some?
      ensures layout.canonical(r).value !in layout.lookups(q).value
    {
      CanonicalNotLookup(r, q, model, u);
    }
    forall r: Record | layout.canonical(r).Some? && layout.byId(Trim(r.id)).Some? ensures layout.lookups(r).Some? {
      TrimTwice(r.id);
      LookupsPrint(r, model, u);
    }
    forall r: Record, id: Str | layout.canonical(r).Some? ensures layout.canonical(r) != layout.byId(id) {
      CanonicalApart(r, id, model, u);
    }
    forall r: Record, id: Str | layout.lookups(r).Some? && layout.byId(id).Some?
      ensures layout.byId(id).value !in layout.lookups(r).value
    {
      LookupsApart(r, id, model, u);
    }
    forall r: Record | layout.canonical(r).Some? ensures layout.scope(layout.canonical(r).value) != layout.collection {
      CanonicalApart(r, [], model, u);
    }
  }

  /** The ids a run uses, as they come. */
  function IdsOf(batches: seq<seq<Record>>): set<Str> {
    set batch, record | batch in batches && record in batch :: record.id
  }

  /** Every batch of the run is settled. */
  ghost predicate SettledRun(batches: seq<seq<Record>>, layout: Layout) {
    forall i :: 0 <= i < |batches| ==>
      SettledBatch(batches[i], LiveBatch(LiveRun(batches[..i], layout), batches[i], layout), layout)
  }

  /** Ids that trim alike are written alike, and `.` and `..`, which are refused, come trimmed. */
  predicate ConsistentIds(ids: set<Str>) {
    && (forall a, b :: a in ids && b in ids && Trim(a) == Trim(b) ==> a == b)
    && (forall a :: a in ids && (Trim(a) == U(".") || Trim(a) == U("..")) ==> a == Trim(a))
  }

  /**
   * For pull requests and issues whose ids are always written alike, after every run of settled
   * batches without failures the per-repository indexes partition the collection index.
   */
  lemma RunsPartition(batches: seq<seq<Record>>, model: Model, u: Unicode, emitCanonical: bool)
    requires ConsistentIds(IdsOf(batches)) && SettledRun(batches, LayoutOf(model, u))
    ensures
      var layout := LayoutOf(model, u);
      Partition(Run(batches, layout, emitCanonical).tables, LiveRun(batches, layout), layout)
  {
    var layout, ids := LayoutOf(model, u), IdsOf(batches);
    LayoutIsGood(model, u);
    IdsAreConsistent(ids, model, u);
    forall i | 0 <= i < |batches| ensures GoodBatch(batches[i], ids) { BatchInIds(batches, i); }
    RunPartition(batches, layout, emitCanonical, ids);
  }

  lemma IdsAreConsistent(ids: set<Str>, model: Model, u: Unicode)
    requires ConsistentIds(ids)
    ensures Consistent(ids, LayoutOf(model, u))
  {
    forall a | a in ids && ByIdPath(a, model).Some? ensures ByIdPath(Trim(a), model).Some? { TrimTwice(a); }
  }

  lemma BatchInIds(batches: seq<seq<Record>>, i: nat)
    requires i < |batches|
    ensures GoodBatch(batches[i], IdsOf(batches))
  {
    forall k | 0 <= k < |batches[i]| ensures batches[i][k].id in IdsOf(batches) {
      assert batches[i] in batches && batches[i][k] in batches[i];
    }
  }

  /** A first write, into an empty store. */
  lemma FirstWrite(record: Record, layout: Layout, emitCanonical: bool)
    requires record.id != [] && layout.byId(record.id).Some? && layout.canonical(record).Some?
      && layout.lookups(record).Some?
    requires !record.deleted
    ensures
      var st := Step(State(map[], [], 0, 0, []), record, layout, emitCanonical);
      var row := Upsert(record.id, Row(record.id, layout.canonical(record).value, record));
      && layout.byId(record.id).value in st.files && st.files[layout.byId(record.id).value] == record
      && st.queue == [(layout.collection, row), (ScopeOf(record, layout), row)]
  {
    assert Kept([], layout.lookups(record).value) == [];
  }

  /** A deletion of the record behind a by-id path. */
  lemma FirstDelete(files: Files, tombstone: Record, layout: Layout, emitCanonical: bool)
    requires tombstone.id != [] && layout.byId(tombstone.id).Some? && tombstone.deleted
      && layout.byId(tombstone.id).value in files
    requires layout.lookups(files[layout.byId(tombstone.id).value]).Some?
      && layout.canonical(files[layout.byId(tombstone.id).value]).Some?
    ensures
      var st := Step(State(files, [], 0, 0, []), tombstone, layout, emitCanonical);
      && layout.byId(tombstone.id).value !in st.files
      && OnPath(st.queue, layout.collection) != []
      && forall i :: 0 <= i < |OnPath(st.queue, layout.collection)| ==>
        OnPath(st.queue, layout.collection)[i] == Remove(tombstone.id)
  {
    var record := files[layout.byId(tombstone.id).value];
    var previous := [layout.canonical(record).value];
    var first, second := (layout.collection, Remove(tombstone.id)), (layout.scope(previous[0]), Remove(tombstone.id));
    assert RemoveFrom([layout.collection] + Scopes(previous, layout), tombstone.id) == [first, second];
    TwoOnPath(first, second, layout.collection);
    assert [] + [first, second] == [first, second];
  }

  lemma {:induction false} OnlyRemoves(actions: seq<Action<Row>>, id: Str)
    requires forall i :: 0 <= i < |actions| ==> actions[i] == Remove(id)
    ensures Upserts(actions) == map[] && Removes(actions) == if actions == [] then {} else {id}
  {
    if actions == [] {
    } else {
      OnlyRemoves(actions[..|actions| - 1], id);
    }
  }

  /**
   * The index is keyed by the id as it comes, the by-id file by the trimmed id: when a record is
   * written and then deleted through the same by-id file, its row is left exactly when the two
   * ids are not written alike.
   */
  lemma UntrimmedIdLeavesRow(record: Record, tombstone: Record, layout: Layout, emitCanonical: bool)
    requires record.id != [] && tombstone.id != [] && layout.byId(record.id).Some?
      && layout.byId(record.id) == layout.byId(tombstone.id)
    requires layout.canonical(record).Some? && layout.lookups(record).Some? && !record.deleted && tombstone.deleted
    ensures
      var once := Step(State(map[], [], 0, 0, []), record, layout, emitCanonical);
      var twice := Step(State(once.files, [], 0, 0, []), tombstone, layout, emitCanonical);
      var index := Flushed(map[], OnPath(once.queue, layout.collection));
      && layout.byId(record.id).value !in twice.files
      && (record.id in Flushed(index, OnPath(twice.queue, layout.collection)) <==> record.id != tombstone.id)
  {
    var once := Step(State(map[], [], 0, 0, []), record, layout, emitCanonical);
    FirstWrite(record, layout, emitCanonical);
    FirstDelete(once.files, tombstone, layout, emitCanonical);
    TwoOnPath(once.queue[0], once.queue[1], layout.collection);
    UpsertsOf(OnPath(once.queue, layout.collection), record.id);
    assert OnPath(once.queue, layout.collection)[0] == once.queue[0].1;
    var twice := Step(State(once.files, [], 0, 0, []), tombstone, layout, emitCanonical);
    OnlyRemoves(OnPath(twice.queue, layout.collection), tombstone.id);
  }
}
