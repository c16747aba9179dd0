/**
 * The Bitbucket emitter for pull requests and issues: record files, a collection index and one
 * index per repository (packages/bitbucket/src/emit-auxiliary-files.ts:19-140 and
 * packages/bitbucket/src/path-mapper.ts:20-112). Any call on the client may fail.
 */
module Bitbucket {
  import opened Wrappers
  import opened JsStrings
  import opened PathSegments
  import opened UriCodec
  import opened StatusSlugs
  import opened AliasSlugs
  import opened IndexFiles

  datatype Model = PullRequest | Issue

  /**
   * A record: its id as a string, whether it is a deletion, and the fields that decide its paths.
   * `labels` are the by-state, by-assignee, by-creator and by-priority labels; `rest` stands for
   * everything else.
   */
  datatype Record = Record(id: Str, deleted: bool, workspace: Option<Str>, workspaceSlug: Option<Str>,
                           repository: Option<Str>, repositoryFullName: Option<Str>, fullName: Option<Str>,
                           repoSlug: Option<Str>, number: Option<Str>, title: Option<Str>,
                           state: Option<Str>, assignee: Option<Str>, creator: Option<Str>, priority: Option<Str>,
                           rest: Str)

  /** An index row; title, updated and state are read off the record. */
  datatype Row = Row(id: Str, canonicalPath: Str, record: Record)

  // ---------------------------------------------------------------------------
  // Paths
  // ---------------------------------------------------------------------------

  /** segment; None when it throws. */
  function Segment(value: Str): Option<Str> {
    if Trim(value) == [] || value == U(".") || value == U("..") then None else Encode(Trim(value))
  }

  function Collection(model: Model): Str { if model == PullRequest then U("pull-requests") else U("issues") }

  function TypeName(model: Model): Str { if model == PullRequest then U("pull-request") else U("issue") }

  function Root(segments: seq<Str>): Str { Join([U("bitbucket")] + segments) }

  /** The workspace and slug of `workspace/slug`. */
  function SplitRepository(repository: Str): Option<(Str, Str)> {
    var workspace := Head(repository);
    if workspace == [] || |workspace| == |repository| then None
    else
      var slug := repository[|workspace| + 1..];
      if slug == [] || SLASH in slug then None else Some((workspace, slug))
  }

  function RepositoryOf(record: Record): Option<Str> {
    var workspace := OrElse(ReadString(record.workspace), ReadString(record.workspaceSlug));
    var slug := ReadString(record.repoSlug);
    OrElse(ReadString(record.repository),
           OrElse(ReadString(record.repositoryFullName),
                  OrElse(ReadString(record.fullName),
                         if workspace.Some? && slug.Some? then Some(workspace.value + [SLASH] + slug.value) else None)))
  }

  function ScopeOfRepository(repository: Str, model: Model): Option<seq<Str>> {
    var (workspace, slug) :- SplitRepository(repository);
    var first :- Segment(workspace);
    var second :- Segment(slug);
    Some([U("repositories"), first, second, Collection(model)])
  }

  /** The directory of a record's repository and collection, below /bitbucket. */
  function ScopeSegments(record: Record, model: Model): Option<seq<Str>> {
    var repository :- RepositoryOf(record);
    ScopeOfRepository(repository, model)
  }

  function FileNameOf(record: Record, model: Model, u: Unicode): Option<Str> {
    var number :- ReadString(record.number);
    var title := match ReadString(record.title) case Some(t) => t case None => TypeName(model);
    Segment(SlugifyAlias(title, u) + U("__") + number)
  }

  /** computeBitbucketPath */
  function CanonicalPath(record: Record, model: Model, u: Unicode): Option<Str> {
    var scope :- ScopeSegments(record, model);
    var name :- FileNameOf(record, model, u);
    Some(Root(scope + [name + U(".json")]))
  }

  function LookupPath(bucket: Str, value: Option<Str>, id: Str, model: Model, u: Unicode): Option<seq<Str>> {
    match ReadString(value)
    case None => Some([])
    case Some(text) =>
      var slug :- Segment(SlugifyAlias(text, u));
      var file :- Segment(id);
      Some([Root([Collection(model), bucket, slug, file + U(".json")])])
  }

  /** bitbucketLookupAliasPaths */
  function LookupPaths(record: Record, model: Model, u: Unicode): Option<seq<Str>> {
    var id :- ReadString(Some(record.id));
    var byState :- LookupPath(U("by-state"), record.state, id, model, u);
    var byAssignee :- LookupPath(U("by-assignee"), record.assignee, id, model, u);
    var byCreator :- LookupPath(U("by-creator"), record.creator, id, model, u);
    var byPriority :- LookupPath(U("by-priority"), record.priority, id, model, u);
    Some(byState + byAssignee + byCreator + byPriority)
  }

  /** bitbucketByIdPath */
  function ByIdPath(id: Str, model: Model): Option<Str> {
    var file :- Segment(id);
    Some(Root([Collection(model), U("by-id"), file + U(".json")]))
  }

  /** The index beside a file: `slice(0, lastIndexOf('/'))` drops the last character when there is no slash. */
  function ScopedIndexPath(canonicalPath: Str): Str {
    var at := LastSlash(canonicalPath);
    (if at >= 0 then canonicalPath[..at] else if canonicalPath == [] then [] else canonicalPath[..|canonicalPath| - 1])
    + U("/_index.json")
  }

  function CollectionIndexPath(model: Model): Str { Root([Collection(model), U("_index.json")]) }

  /** How records are laid out; None when printing throws. */
  datatype Layout = Layout(byId: Str -> Option<Str>, canonical: Record -> Option<Str>,
                           lookups: Record -> Option<seq<Str>>,
                           scope: Str -> Str, collection: Str)

  function LayoutOf(model: Model, u: Unicode): Layout {
    Layout(id => ByIdPath(id, model), record => CanonicalPath(record, model, u),
           record => LookupPaths(record, model, u),
           ScopedIndexPath, CollectionIndexPath(model))
  }

  // ---------------------------------------------------------------------------
  // The function computed
  // ---------------------------------------------------------------------------

  type Files = map<Str, Record>
  type Tables = map<Str, Table<Row>>
  type Queue = seq<(Str, Action<Row>)>

  datatype State = State(files: Files, queue: Queue, written: nat, deleted: nat, errors: seq<Str>)

  function Kept(paths: seq<Str>, others: seq<Str>): seq<Str> {
    if paths == [] then []
    else Kept(paths[..|paths| - 1], others) + if paths[|paths| - 1] in others then [] else [paths[|paths| - 1]]
  }

  function Without(files: Files, paths: seq<Str>): Files { map p | p in files && p !in paths :: files[p] }

  function With(files: Files, paths: seq<Str>, record: Record): Files { files + map p | p in paths :: record }

  /** What is known of a record's earlier version. */
  datatype Prior = Prior(lookups: seq<Str>, canonical: Option<Str>)

  /** None when reading the earlier version back throws. */
  function PriorOf(files: Files, aliasPath: Str, layout: Layout): Option<Prior> {
    if aliasPath !in files then Some(Prior([], None))
    else
      var lookups :- layout.lookups(files[aliasPath]);
      Some(Prior(lookups, layout.canonical(files[aliasPath])))
  }

  /** A caught exception: an error on the collection index, plus one when the earlier version has no path. */
  function Caught(st: State, layout: Layout): State { st.(errors := st.errors + [layout.collection]) }

  function NotePrior(st: State, aliasPath: Str, prior: Prior): State {
    if aliasPath in st.files && prior.canonical.None? then st.(errors := st.errors + [aliasPath]) else st
  }

  function Moved(prior: Prior, canonicalPath: Str): seq<Str> {
    if prior.canonical.Some? && prior.canonical.value != canonicalPath then [prior.canonical.value] else []
  }

  function RemoveFrom(indexes: seq<Str>, id: Str): Queue {
    seq(|indexes|, i requires 0 <= i < |indexes| => (indexes[i], Remove(id)))
  }

  function Scopes(paths: seq<Str>, layout: Layout): (r: seq<Str>)
    ensures |r| == |paths|
  {
    seq(|paths|, i requires 0 <= i < |paths| => layout.scope(paths[i]))
  }

  function Delete(st: State, id: Str, aliasPath: Str, prior: Prior, layout: Layout): State {
    var previous := if prior.canonical.Some? then [prior.canonical.value] else [];
    var gone := [aliasPath] + prior.lookups + previous;
    st.(files := Without(st.files, gone), deleted := st.deleted + |gone|,
        queue := st.queue + RemoveFrom([layout.collection] + Scopes(previous, layout), id))
  }

  function Write(st: State, record: Record, aliasPath: Str, prior: Prior, layout: Layout, emitCanonical: bool): State {
    match layout.canonical(record)
    case None => Caught(st, layout)
    case Some(canonicalPath) =>
      var moved := Moved(prior, canonicalPath);
      var left := st.(queue := st.queue + RemoveFrom(Scopes(moved, layout), record.id));
      match layout.lookups(record)
      case None => Caught(left, layout)
      case Some(lookups) =>
        Publish(left, record, canonicalPath, (if emitCanonical then [canonicalPath] else []) + [aliasPath] + lookups,
                Kept(prior.lookups, lookups) + moved, layout)
  }

  /** The writes, then the stale deletes, then the two index rows. */
  function Publish(st: State, record: Record, canonicalPath: Str, targets: seq<Str>, stale: seq<Str>, layout: Layout)
    : State
  {
    var row := Upsert(record.id, Row(record.id, canonicalPath, record));
    st.(files := Without(With(st.files, targets, record), stale),
        written := st.written + |targets|, deleted := st.deleted + |stale|,
        queue := st.queue + [(layout.collection, row), (layout.scope(canonicalPath), row)])
  }

  function Step(st: State, record: Record, layout: Layout, emitCanonical: bool): State {
    if record.id == [] then Caught(st, layout)
    else
      match layout.byId(record.id)
      case None => Caught(st, layout)
      case Some(aliasPath) =>
        match PriorOf(st.files, aliasPath, layout)
        case None => Caught(st, layout)
        case Some(prior) =>
          var noted := NotePrior(st, aliasPath, prior);
          if record.deleted then Delete(noted, record.id, aliasPath, prior, layout)
          else Write(noted, record, aliasPath, prior, layout, emitCanonical)
  }

  function Batch(st: State, records: seq<Record>, layout: Layout, emitCanonical: bool): State {
    if records == [] then st
    else Step(Batch(st, records[..|records| - 1], layout, emitCanonical), records[|records| - 1], layout, emitCanonical)
  }

  // ---------------------------------------------------------------------------
  // The same with failing calls
  // ---------------------------------------------------------------------------

  /**
   * How the client answers the calls for one record: which of the optional calls it has, its one read,
   * and each path's delete and write.
   */
  datatype Luck = Luck(hasRead: bool, readOk: bool, hasDelete: bool, deleteOk: Str -> bool, writeOk: Str -> bool)

  /** The paths before the first whose call throws. */
  function UpTo(paths: seq<Str>, ok: Str -> bool): (done: seq<Str>)
    ensures |done| <= |paths|
  {
    if paths == [] || !ok(paths[0]) then [] else [paths[0]] + UpTo(paths[1..], ok)
  }

  lemma {:induction false} UpToIs(paths: seq<Str>, ok: Str -> bool, i: nat)
    requires i <= |paths| && (forall k :: 0 <= k < i ==> ok(paths[k])) && (i < |paths| ==> !ok(paths[i]))
    ensures UpTo(paths, ok) == paths[..i]
    decreases i
  {
    if i > 0 {
      UpToIs(paths[1..], ok, i - 1);
      assert paths[..i] == [paths[0]] + paths[1..][..i - 1];
    }
  }

  /** An earlier version that cannot be read counts as none. */
  function Seen(files: Files, luck: Luck): Files { if luck.hasRead && luck.readOk then files else map[] }

  function NoteRead(st: State, aliasPath: Str, luck: Luck): State {
    if luck.hasRead && !luck.readOk then st.(errors := st.errors + [aliasPath]) else st
  }

  /** Deletes in order; the first that throws is caught. */
  function TryDeletes(st: State, gone: seq<Str>, layout: Layout, luck: Luck): State {
    var done := UpTo(gone, luck.deleteOk);
    var after := st.(files := Without(st.files, done), deleted := st.deleted + |done|);
    if |done| < |gone| then Caught(after, layout) else after
  }

  function TryDelete(st: State, id: Str, aliasPath: Str, prior: Prior, layout: Layout, luck: Luck): State {
    var previous := if prior.canonical.Some? then [prior.canonical.value] else [];
    var queued := st.(queue := st.queue + RemoveFrom([layout.collection] + Scopes(previous, layout), id));
    if luck.hasDelete then TryDeletes(queued, [aliasPath] + prior.lookups + previous, layout, luck)
    else queued.(errors := queued.errors + [aliasPath])
  }

  /** The two index rows. */
  function Rows(st: State, record: Record, canonicalPath: Str, layout: Layout): State {
    var row := Upsert(record.id, Row(record.id, canonicalPath, record));
    st.(queue := st.queue + [(layout.collection, row), (layout.scope(canonicalPath), row)])
  }

  /** The writes, then the stale deletes, then the two index rows, up to the first call that throws. */
  function TryPublish(st: State, record: Record, aliasPath: Str, canonicalPath: Str, targets: seq<Str>,
                      stale: seq<Str>, moved: seq<Str>, layout: Layout, luck: Luck): State
  {
    var done := UpTo(targets, luck.writeOk);
    var written := st.(files := With(st.files, done, record), written := st.written + |done|);
    if |done| < |targets| then Caught(written, layout)
    else if !luck.hasDelete then
      Rows(if stale == [] then written else written.(errors := written.errors + [aliasPath]), record, canonicalPath,
           layout)
    else
      var cleaned := TryDeletes(written, stale + moved, layout, luck);
      if |UpTo(stale + moved, luck.deleteOk)| < |stale + moved| then cleaned
      else Rows(cleaned, record, canonicalPath, layout)
  }

  function TryWrite(st: State, record: Record, aliasPath: Str, prior: Prior, layout: Layout, emitCanonical: bool,
                    luck: Luck): State
  {
    match layout.canonical(record)
    case None => Caught(st, layout)
    case Some(canonicalPath) =>
      var moved := Moved(prior, canonicalPath);
      var left := st.(queue := st.queue + RemoveFrom(Scopes(moved, layout), record.id));
      match layout.lookups(record)
      case None => Caught(left, layout)
      case Some(lookups) =>
        TryPublish(left, record, aliasPath, canonicalPath,
                   (if emitCanonical then [canonicalPath] else []) + [aliasPath] + lookups,
                   Kept(prior.lookups, lookups), moved, layout, luck)
  }

  function Try(st: State, record: Record, layout: Layout, emitCanonical: bool, luck: Luck): State {
    if record.id == [] then Caught(st, layout)
    else
      match layout.byId(record.id)
      case None => Caught(st, layout)
      case Some(aliasPath) =>
        var read, seen := NoteRead(st, aliasPath, luck), Seen(st.files, luck);
        match PriorOf(seen, aliasPath, layout)
        case None => Caught(read, layout)
        case Some(prior) =>
          var noted := if aliasPath in seen && prior.canonical.None? then read.(errors := read.errors + [aliasPath])
            else read;
          if record.deleted then TryDelete(noted, record.id, aliasPath, prior, layout, luck)
          else TryWrite(noted, record, aliasPath, prior, layout, emitCanonical, luck)
  }

  /** A batch; `luck` is what its first record meets, its second and so on. */
  function TryAll(st: State, records: seq<Record>, layout: Layout, emitCanonical: bool, luck: nat -> Luck): State {
    if records == [] then st
    else
      Try(TryAll(st, records[..|records| - 1], layout, emitCanonical, luck), records[|records| - 1], layout,
          emitCanonical, luck(|records| - 1))
  }

  // ---------------------------------------------------------------------------
  // Index files
  // ---------------------------------------------------------------------------

  /** The actions queued for one index file. */
  function OnPath(queue: Queue, path: Str): seq<Action<Row>> {
    if queue == [] then []
    else OnPath(queue[..|queue| - 1], path) + if queue[|queue| - 1].0 == path then [queue[|queue| - 1].1] else []
  }

  function TableAt(tables: Tables, path: Str): Table<Row> { if path in tables then tables[path] else map[] }

  /** The index files with queued actions. */
  function QueuedPaths(queue: Queue): set<Str> { set i | 0 <= i < |queue| :: queue[i].0 }

  lemma {:induction false} OnQueuedPath(queue: Queue, path: Str)
    ensures OnPath(queue, path) != [] <==> path in QueuedPaths(queue)
  {
    if queue == [] {
    } else {
      var front, last := queue[..|queue| - 1], queue[|queue| - 1];
      OnQueuedPath(front, path);
      assert queue == front + [last];
      assert forall i :: 0 <= i < |front| ==> front[i] == queue[i];
      assert QueuedPaths(queue) == QueuedPaths(front) + {last.0};
    }
  }

  /** What a flush makes of a table and the actions queued on it. */
  type Merger = (Table<Row>, seq<Action<Row>>) -> Table<Row>

  function Flushing(): Merger { (table, actions) => Flushed(table, actions) }

  /** Every index file after its flush. */
  ghost predicate FlushedAll(before: Tables, after: Tables, queue: Queue, merge: Merger) {
    && (forall p :: TableAt(after, p) == merge(TableAt(before, p), OnPath(queue, p)))
    && (forall p :: p in after <==> p in before || OnPath(queue, p) != [])
  }

  ghost predicate KeepsWhenEmpty(merge: Merger) { forall table: Table<Row> :: merge(table, []) == table }

  /** Which index files can be read and which can be written when they are flushed. */
  datatype IndexLuck = IndexLuck(readOk: Str -> bool, writeOk: Str -> bool)

  /** What the flush of one index leaves. */
  function RewrittenAt(tables: Tables, path: Str, actions: seq<Action<Row>>, luck: IndexLuck): Table<Row> {
    Rewritten(TableAt(tables, path), actions, luck.readOk(path), luck.writeOk(path))
  }

  /** Every index file after its flush, any of whose calls may fail. */
  ghost predicate FlushedUnder(before: Tables, after: Tables, queue: Queue, luck: IndexLuck) {
    && (forall p :: TableAt(after, p) == RewrittenAt(before, p, OnPath(queue, p), luck))
    && (forall p :: p in after <==> p in before || (OnPath(queue, p) != [] && luck.writeOk(p)))
  }

  /** One index file after flushing every reconciler outside `todo`. */
  ghost predicate FlushedAt(before: Tables, after: Tables, indexes: map<Str, seq<Action<Row>>>, todo: set<Str>,
                            luck: IndexLuck, p: Str)
  {
    var done := p in indexes && p !in todo;
    && TableAt(after, p) == (if done then RewrittenAt(before, p, indexes[p], luck) else TableAt(before, p))
    && (p in after <==> p in before || (done && indexes[p] != [] && luck.writeOk(p)))
  }

  ghost predicate FlushedExcept(before: Tables, after: Tables, indexes: map<Str, seq<Action<Row>>>, todo: set<Str>,
                                luck: IndexLuck)
  {
    forall p :: FlushedAt(before, after, indexes, todo, luck, p)
  }

  lemma FlushStep(before: Tables, mid: Tables, after: Tables, indexes: map<Str, seq<Action<Row>>>, todo: set<Str>,
                  luck: IndexLuck, path: Str)
    requires path in todo && path in indexes && FlushedExcept(before, mid, indexes, todo, luck)
    requires after
      == if indexes[path] == [] || !luck.writeOk(path) then mid
         else mid[path := RewrittenAt(mid, path, indexes[path], luck)]
    ensures FlushedExcept(before, after, indexes, todo - {path}, luck)
  {
    forall p ensures FlushedAt(before, after, indexes, todo - {path}, luck, p) {
      assert FlushedAt(before, mid, indexes, todo, luck, p);
    }
  }

  lemma FlushEnd(before: Tables, after: Tables, indexes: map<Str, seq<Action<Row>>>, queue: Queue, luck: IndexLuck)
    requires FlushedExcept(before, after, indexes, {}, luck) && Sorted(indexes, queue)
    ensures FlushedUnder(before, after, queue, luck)
  {
    forall p ensures TableAt(after, p) == RewrittenAt(before, p, OnPath(queue, p), luck)
      && (p in after <==> p in before || (OnPath(queue, p) != [] && luck.writeOk(p)))
    {
      assert FlushedAt(before, after, indexes, {}, luck, p);
    }
  }

  /** When every index can be read and written, each is merged with what is queued for it. */
  lemma CalmFlush(before: Tables, after: Tables, queue: Queue, luck: IndexLuck)
    requires forall p :: luck.readOk(p) && luck.writeOk(p)
    ensures FlushedUnder(before, after, queue, luck) <==> FlushedAll(before, after, queue, Flushing())
  {
    forall p
      ensures RewrittenAt(before, p, OnPath(queue, p), luck) == Flushing()(TableAt(before, p), OnPath(queue, p))
    {
      FlushingKeepsWhenEmpty();
      assert OnPath(queue, p) == [] ==> Flushing()(TableAt(before, p), []) == TableAt(before, p);
    }
  }

  lemma FlushingKeepsWhenEmpty()
    ensures KeepsWhenEmpty(Flushing())
  {
    forall table: Table<Row> ensures Flushed(table, []) == table {}
  }

  /** The reconcilers with queued actions whose index can be written, or those whose index cannot. */
  function Touched(indexes: map<Str, seq<Action<Row>>>, luck: IndexLuck, written: bool): set<Str> {
    set p | p in indexes && indexes[p] != [] && luck.writeOk(p) == written
  }

  /** The queued index paths that can be written, or those that cannot. */
  function FlushedPaths(queue: Queue, luck: IndexLuck, written: bool): set<Str> {
    set p | p in QueuedPaths(queue) && luck.writeOk(p) == written
  }

  lemma TouchedAreQueued(indexes: map<Str, seq<Action<Row>>>, queue: Queue, luck: IndexLuck, written: bool)
    requires Sorted(indexes, queue)
    ensures Touched(indexes, luck, written) == FlushedPaths(queue, luck, written)
  {
    forall p ensures p in Touched(indexes, luck, written) <==> p in FlushedPaths(queue, luck, written) {
      OnQueuedPath(queue, p);
    }
  }

  lemma TouchedStep(indexes: map<Str, seq<Action<Row>>>, todo: set<Str>, path: Str, luck: IndexLuck, written: bool)
    requires path in todo && path in indexes
    ensures
      var before, after := Touched(indexes, luck, written) - todo, Touched(indexes, luck, written) - (todo - {path});
      var more := indexes[path] != [] && luck.writeOk(path) == written;
      && |after| == |before| + (if more then 1 else 0)
      && multiset(after) == multiset(before) + (if more then multiset{path} else multiset{})
  {
    var before, after := Touched(indexes, luck, written) - todo, Touched(indexes, luck, written) - (todo - {path});
    if indexes[path] != [] && luck.writeOk(path) == written {
      assert after == before + {path} && path !in before;
    } else {
      assert after == before;
    }
  }

  /** What has been counted and reported once every reconciler outside `todo` is flushed. */
  ghost predicate Tallied(indexes: map<Str, seq<Action<Row>>>, todo: set<Str>, luck: IndexLuck, written0: nat,
                          errors0: seq<Str>, written: nat, errors: seq<Str>)
  {
    && written == written0 + |Touched(indexes, luck, true) - todo|
    && errors0 <= errors && multiset(errors[|errors0|..]) == multiset(Touched(indexes, luck, false) - todo)
  }

  lemma TallyStart(indexes: map<Str, seq<Action<Row>>>, luck: IndexLuck, written: nat, errors: seq<Str>)
    ensures Tallied(indexes, indexes.Keys, luck, written, errors, written, errors)
  {
    assert Touched(indexes, luck, true) - indexes.Keys == {} && Touched(indexes, luck, false) - indexes.Keys == {};
  }

  lemma TallyStep(indexes: map<Str, seq<Action<Row>>>, todo: set<Str>, path: Str, luck: IndexLuck, written0: nat,
                  errors0: seq<Str>, written: nat, errors: seq<Str>, more: seq<Str>)
    requires path in todo && path in indexes && Tallied(indexes, todo, luck, written0, errors0, written, errors)
    requires more == if indexes[path] != [] && !luck.writeOk(path) then [path] else []
    ensures Tallied(indexes, todo - {path}, luck, written0, errors0,
                    written + (if indexes[path] != [] && luck.writeOk(path) then 1 else 0), errors + more)
  {
    TouchedStep(indexes, todo, path, luck, true);
    TouchedStep(indexes, todo, path, luck, false);
    assert (errors + more)[|errors0|..] == errors[|errors0|..] + more;
  }

  lemma TallyEnd(indexes: map<Str, seq<Action<Row>>>, queue: Queue, luck: IndexLuck, written0: nat,
                 errors0: seq<Str>, written: nat, errors: seq<Str>)
    requires Sorted(indexes, queue) && Tallied(indexes, {}, luck, written0, errors0, written, errors)
    ensures written == written0 + |FlushedPaths(queue, luck, true)| && errors0 <= errors
    ensures multiset(errors[|errors0|..]) == multiset(FlushedPaths(queue, luck, false))
  {
    assert Touched(indexes, luck, true) - {} == Touched(indexes, luck, true);
    assert Touched(indexes, luck, false) - {} == Touched(indexes, luck, false);
    TouchedAreQueued(indexes, queue, luck, true);
    TouchedAreQueued(indexes, queue, luck, false);
  }

  /** Each path with a reconciler has the actions queued for it, and no other path has any. */
  ghost predicate Sorted(indexes: map<Str, seq<Action<Row>>>, queue: Queue) {
    forall p :: OnPath(queue, p) == if p in indexes then indexes[p] else []
  }

  lemma SortedSnoc(indexes: map<Str, seq<Action<Row>>>, queue: Queue, path: Str, action: Action<Row>)
    requires Sorted(indexes, queue)
    ensures Sorted(indexes[path := (if path in indexes then indexes[path] else []) + [action]],
                   queue + [(path, action)])
  {
    OnPathsSnoc(queue, (path, action));
  }

  // ---------------------------------------------------------------------------
  // The emitter
  // ---------------------------------------------------------------------------

  /** Each index is the list of actions queued on its reconciler. */
  class Emitter {
    var files: Files
    var tables: Tables
    var indexes: map<Str, seq<Action<Row>>>
    ghost var queue: Queue
    var written: nat
    var deleted: nat
    var errors: seq<Str>
    const layout: Layout
    const emitCanonical: bool

    constructor (files: Files, tables: Tables, layout: Layout, emitCanonical: bool)
      ensures Valid() && queue == []
      ensures this.files == files && this.tables == tables && this.layout == layout
        && this.emitCanonical == emitCanonical
      ensures written == deleted == 0 && errors == []
    {
      this.files, this.tables, this.layout, this.emitCanonical := files, tables, layout, emitCanonical;
      indexes, queue := map[layout.collection := []], [];
      written, deleted, errors := 0, 0, [];
    }

    ghost predicate Valid()
      reads this
    {
      Sorted(indexes, queue)
    }

    ghost function Snapshot(): State
      reads this
    {
      State(files, queue, written, deleted, errors)
    }

    /** `scopedIndex(path).upsert(row)` or `.remove(id)`: the reconciler is made when it is first needed. */
    method Enqueue(path: Str, action: Action<Row>)
      requires Valid()
      modifies this`indexes, this`queue
      ensures Valid() && queue == old(queue) + [(path, action)]
    {
      SortedSnoc(indexes, queue, path, action);
      if path !in indexes { indexes := indexes[path := []]; }
      indexes := indexes[path := indexes[path] + [action]];
      queue := queue + [(path, action)];
    }

    /** Queues removals of an id from several indexes. */
    method EnqueueRemoves(paths: seq<Str>, id: Str)
      requires Valid()
      modifies this`indexes, this`queue
      ensures Valid() && queue == old(queue) + RemoveFrom(paths, id)
    {
      assert queue == queue + RemoveFrom([], id);
      for i := 0 to |paths|
        invariant Valid() && queue == old(queue) + RemoveFrom(paths[..i], id)
      {
        assert RemoveFrom(paths[..i + 1], id) == RemoveFrom(paths[..i], id) + [(paths[i], Remove(id))];
        Enqueue(paths[i], Remove(id));
      }
      assert paths[..|paths|] == paths;
    }

    /** Deletes in order, as long as they succeed. */
    method DeleteEach(paths: seq<Str>, ok: Str -> bool) returns (complete: bool)
      modifies this`files, this`deleted
      ensures files == Without(old(files), UpTo(paths, ok)) && deleted == old(deleted) + |UpTo(paths, ok)|
      ensures complete == (|UpTo(paths, ok)| == |paths|)
    {
      assert files == Without(files, []);
      for i := 0 to |paths|
        invariant files == Without(old(files), paths[..i]) && deleted == old(deleted) + i
        invariant forall k :: 0 <= k < i ==> ok(paths[k])
      {
        if !ok(paths[i]) {
          UpToIs(paths, ok, i);
          return false;
        }
        WithoutStep(old(files), paths, i);
        files := files - {paths[i]};
        deleted := deleted + 1;
      }
      UpToIs(paths, ok, |paths|);
      assert paths[..|paths|] == paths;
      return true;
    }

    /** Writes in order, as long as they succeed. */
    method WriteEach(paths: seq<Str>, record: Record, ok: Str -> bool) returns (complete: bool)
      modifies this`files, this`written
      ensures files == With(old(files), UpTo(paths, ok), record) && written == old(written) + |UpTo(paths, ok)|
      ensures complete == (|UpTo(paths, ok)| == |paths|)
    {
      assert files == With(files, [], record);
      for i := 0 to |paths|
        invariant files == With(old(files), paths[..i], record) && written == old(written) + i
        invariant forall k :: 0 <= k < i ==> ok(paths[k])
      {
        if !ok(paths[i]) {
          UpToIs(paths, ok, i);
          return false;
        }
        WithStep(old(files), paths, i, record);
        files := files[paths[i] := record];
        written := written + 1;
      }
      UpToIs(paths, ok, |paths|);
      assert paths[..|paths|] == paths;
      return true;
    }

    /** The deletes of one record; the catch block reports the first that throws. */
    method RunDeletes(gone: seq<Str>, luck: Luck) returns (complete: bool)
      requires Valid()
      modifies this
      ensures Valid() && tables == old(tables) && complete == (|UpTo(gone, luck.deleteOk)| == |gone|)
      ensures Snapshot() == TryDeletes(old(Snapshot()), gone, layout, luck)
    {
      complete := DeleteEach(gone, luck.deleteOk);
      if !complete { errors := errors + [layout.collection]; }
    }

    method EmitDelete(id: Str, aliasPath: Str, prior: Prior, luck: Luck)
      requires Valid()
      modifies this
      ensures Valid() && tables == old(tables)
      ensures Snapshot() == TryDelete(old(Snapshot()), id, aliasPath, prior, layout, luck)
    {
      var previous := if prior.canonical.Some? then [prior.canonical.value] else [];
      EnqueueRemoves([layout.collection] + Scopes(previous, layout), id);
      if luck.hasDelete {
        var complete := RunDeletes([aliasPath] + prior.lookups + previous, luck);
      } else {
        errors := errors + [aliasPath];
      }
    }

    method EmitWrite(record: Record, aliasPath: Str, prior: Prior, luck: Luck)
      requires Valid()
      modifies this
      ensures Valid() && tables == old(tables)
      ensures Snapshot() == TryWrite(old(Snapshot()), record, aliasPath, prior, layout, emitCanonical, luck)
    {
      var canonicalPath := layout.canonical(record);
      if canonicalPath.None? {
        errors := errors + [layout.collection];
        return;
      }
      var moved := Moved(prior, canonicalPath.value);
      EnqueueRemoves(Scopes(moved, layout), record.id);
      var lookups := layout.lookups(record);
      if lookups.None? {
        errors := errors + [layout.collection];
        return;
      }
      PublishRecord(record, aliasPath, canonicalPath.value,
                    (if emitCanonical then [canonicalPath.value] else []) + [aliasPath] + lookups.value,
                    Kept(prior.lookups, lookups.value), moved, luck);
    }

    method PublishRecord(record: Record, aliasPath: Str, canonicalPath: Str, targets: seq<Str>, stale: seq<Str>,
                         moved: seq<Str>, luck: Luck)
      requires Valid()
      modifies this
      ensures Valid() && tables == old(tables)
      ensures Snapshot()
        == TryPublish(old(Snapshot()), record, aliasPath, canonicalPath, targets, stale, moved, layout, luck)
    {
      var complete := WriteEach(targets, record, luck.writeOk);
      if !complete {
        errors := errors + [layout.collection];
        return;
      }
      if luck.hasDelete {
        complete := RunDeletes(stale + moved, luck);
        if !complete { return; }
      } else if stale != [] {
        errors := errors + [aliasPath];
      }
      EnqueueRows(record, canonicalPath);
    }

    method EnqueueRows(record: Record, canonicalPath: Str)
      requires Valid()
      modifies this`indexes, this`queue
      ensures Valid() && Snapshot() == Rows(old(Snapshot()), record, canonicalPath, layout)
    {
      ghost var before := queue;
      var row := Upsert(record.id, Row(record.id, canonicalPath, record));
      Enqueue(layout.collection, row);
      Enqueue(layout.scope(canonicalPath), row);
      assert queue == before + [(layout.collection, row), (layout.scope(canonicalPath), row)];
    }

    method EmitRecord(record: Record, luck: Luck)
      requires Valid()
      modifies this
      ensures Valid() && tables == old(tables)
      ensures Snapshot() == Try(old(Snapshot()), record, layout, emitCanonical, luck)
    {
      var aliasPath := if record.id == [] then None else layout.byId(record.id);
      if aliasPath.None? {
        errors := errors + [layout.collection];
        return;
      }
      if luck.hasRead && !luck.readOk { errors := errors + [aliasPath.value]; }
      var prior := PriorOf(Seen(files, luck), aliasPath.value, layout);
      if prior.None? {
        errors := errors + [layout.collection];
        return;
      }
      if aliasPath.value in Seen(files, luck) && prior.value.canonical.None? { errors := errors + [aliasPath.value]; }
      if record.deleted {
        EmitDelete(record.id, aliasPath.value, prior.value, luck);
      } else {
        EmitWrite(record, aliasPath.value, prior.value, luck);
      }
    }

    /** `reconciler.flush()` */
    method FlushOne(path: Str, luck: IndexLuck)
      requires path in indexes
      modifies this`tables, this`written, this`errors
      ensures tables == if indexes[path] == [] || !luck.writeOk(path) then old(tables)
                        else old(tables)[path := RewrittenAt(old(tables), path, indexes[path], luck)]
      ensures written == old(written) + if indexes[path] != [] && luck.writeOk(path) then 1 else 0
      ensures errors == old(errors) + if indexes[path] != [] && !luck.writeOk(path) then [path] else []
    {
      if indexes[path] == [] { return; }
      var stored := if luck.readOk(path) then TableAt(tables, path) else map[];
      if luck.writeOk(path) {
        tables := tables[path := Flushed(stored, indexes[path])];
        written := written + 1;
      } else {
        errors := errors + [path];
      }
    }

    /** Every index file with queued actions is read, merged and written once, in some order. */
    method FlushIndexes(luck: IndexLuck)
      requires Valid()
      modifies this`tables, this`written, this`errors
      ensures FlushedUnder(old(tables), tables, queue, luck)
      ensures written == old(written) + |FlushedPaths(queue, luck, true)|
      ensures old(errors) <= errors
      ensures multiset(errors[|old(errors)|..]) == multiset(FlushedPaths(queue, luck, false))
    {
      var todo := indexes.Keys;
      TallyStart(indexes, luck, written, errors);
      while todo != {}
        invariant todo <= indexes.Keys
        invariant FlushedExcept(old(tables), tables, indexes, todo, luck)
        invariant Tallied(indexes, todo, luck, old(written), old(errors), written, errors)
        decreases |todo|
      {
        var path :| path in todo;
        ghost var before := tables;
        TallyStep(indexes, todo, path, luck, old(written), old(errors), written, errors,
                  if indexes[path] != [] && !luck.writeOk(path) then [path] else []);
        FlushOne(path, luck);
        FlushStep(old(tables), before, tables, indexes, todo, luck, path);
        todo := todo - {path};
      }
      FlushEnd(old(tables), tables, indexes, queue, luck);
      TallyEnd(indexes, queue, luck, old(written), old(errors), written, errors);
    }

    method EmitBitbucketAuxiliaryFiles(records: seq<Record>, luck: nat -> Luck, indexLuck: IndexLuck)
      requires Valid() && queue == []
      modifies this
      ensures Valid()
      ensures
        var end := TryAll(old(Snapshot()), records, layout, emitCanonical, luck);
        && files == end.files && deleted == end.deleted && queue == end.queue
        && FlushedUnder(old(tables), tables, end.queue, indexLuck)
        && written == end.written + |FlushedPaths(end.queue, indexLuck, true)|
        && end.errors <= errors
        && multiset(errors[|end.errors|..]) == multiset(FlushedPaths(end.queue, indexLuck, false))
    {
      ghost var start := Snapshot();
      for i := 0 to |records|
        invariant Valid() && tables == old(tables)
        invariant Snapshot() == TryAll(start, records[..i], layout, emitCanonical, luck)
      {
        assert records[..i + 1][..i] == records[..i];
        EmitRecord(records[i], luck(i));
      }
      assert records[..|records|] == records;
      FlushIndexes(indexLuck);
    }
  }

  lemma WithoutStep(files: Files, paths: seq<Str>, i: nat)
    requires i < |paths|
    ensures Without(files, paths[..i + 1]) == Without(files, paths[..i]) - {paths[i]}
  {
    assert paths[..i + 1] == paths[..i] + [paths[i]];
  }

  lemma WithStep(files: Files, paths: seq<Str>, i: nat, record: Record)
    requires i < |paths|
    ensures With(files, paths[..i + 1], record) == With(files, paths[..i], record)[paths[i] := record]
  {
    assert paths[..i + 1] == paths[..i] + [paths[i]];
  }

  lemma OnPathsSnoc(queue: Queue, last: (Str, Action<Row>))
    ensures forall p ::
      OnPath(queue + [last], p) == if p == last.0 then OnPath(queue, p) + [last.1] else OnPath(queue, p)
  {
    forall p
      ensures OnPath(queue + [last], p) == if p == last.0 then OnPath(queue, p) + [last.1] else OnPath(queue, p)
    {
      OnPathSnoc(queue, last, p);
    }
  }

  lemma OnPathSnoc(queue: Queue, last: (Str, Action<Row>), path: Str)
    ensures OnPath(queue + [last], path)
      == if last.0 == path then OnPath(queue, path) + [last.1] else OnPath(queue, path)
  {
    assert (queue + [last])[..|queue|] == queue;
  }
}
