/**
 * What the Bitbucket emitter promises in terms of a record's own fields: which path each field calls
 * for, and which record a path leads to after a run
 * (packages/bitbucket/src/path-mapper.ts:20-112 and packages/bitbucket/src/emit-auxiliary-files.ts:57-134).
 */
module BitbucketMeaning {
  import opened Wrappers
  import opened JsStrings
  import opened PathSegments
  import opened UriCodec
  import opened StatusSlugs
  import opened AliasSlugs
  import opened AliasStore
  import opened Bitbucket
  import opened BitbucketRuns
  import opened BitbucketFiles
  import opened Latest

  // ---------------------------------------------------------------------------
  // Which field calls for which path
  // ---------------------------------------------------------------------------

  /** A text that stands in a path as this segment: neither blank nor a dot segment. */
  predicate SegmentReads(text: Str, segment: Str) {
    text != U(".") && text != U("..") && EncodeSegment(text) == Some(segment)
  }

  /** The file named after a text. */
  predicate FileReads(text: Str, file: Str) {
    EncodeSegment(text).Some? && SegmentReads(text, EncodeSegment(text).value)
    && file == EncodeSegment(text).value + U(".json")
  }

  /** The first of some readings that is there. */
  predicate IsFirst(options: seq<Option<Str>>, text: Str) {
    exists i :: 0 <= i < |options| && options[i] == Some(text) && forall j :: 0 <= j < i ==> options[j].None?
  }

  /** The workspace, under either of its names, and the slug with a slash between them. */
  ghost predicate IsComposed(record: Record, repository: Str) {
    exists workspace: Str ::
      && IsFirst([ReadString(record.workspace), ReadString(record.workspaceSlug)], workspace)
      && ReadString(record.repoSlug).Some? && repository == workspace + [SLASH] + ReadString(record.repoSlug).value
  }

  /** The repository a record says it is in. */
  ghost predicate SaysRepository(record: Record, repository: Str) {
    var fields := [ReadString(record.repository), ReadString(record.repositoryFullName), ReadString(record.fullName)];
    IsFirst(fields, repository)
    || ((forall i :: 0 <= i < |fields| ==> fields[i].None?) && IsComposed(record, repository))
  }

  predicate IsCollection(segment: Str, model: Model) {
    match model
    case PullRequest => segment == U("pull-requests")
    case Issue => segment == U("issues")
  }

  /** The record's title, or else the name of its model. */
  function TitleOf(record: Record, model: Model): Str {
    match ReadString(record.title)
    case Some(title) => title
    case None => match model case PullRequest => U("pull-request") case Issue => U("issue")
  }

  predicate NameReads(record: Record, model: Model, file: Str, u: Unicode) {
    && ReadString(record.number).Some?
    && FileReads(SlugifyAlias(TitleOf(record, model), u) + U("__") + ReadString(record.number).value, file)
  }

  /** The canonical file lies in the record's repository and collection and is named by title and number. */
  ghost predicate CallsForFile(segments: seq<Str>, record: Record, model: Model, u: Unicode) {
    && |segments| == 5 && segments[0] == U("repositories") && IsCollection(segments[3], model)
    && NameReads(record, model, segments[4], u)
    && InRepository(record, segments[1], segments[2])
  }

  ghost predicate InRepository(record: Record, first: Str, second: Str) {
    exists workspace: Str, slug: Str ::
      SaysRepository(record, workspace + [SLASH] + slug) && Plain(workspace) && Plain(slug)
        && SegmentReads(workspace, first) && SegmentReads(slug, second)
  }

  predicate SlugsTo(field: Option<Str>, slug: Str, u: Unicode) {
    ReadString(field).Some? && SlugifyAlias(ReadString(field).value, u) == slug
  }

  /** A lookup path: the directory of a label and the record's trimmed id. */
  predicate CallsForLookup(segments: seq<Str>, record: Record, model: Model, u: Unicode) {
    && |segments| == 4 && IsCollection(segments[0], model) && FileReads(Trim(record.id), segments[3])
    && ((segments[1] == U("by-state") && SlugsTo(record.state, segments[2], u))
        || (segments[1] == U("by-assignee") && SlugsTo(record.assignee, segments[2], u))
        || (segments[1] == U("by-creator") && SlugsTo(record.creator, segments[2], u))
        || (segments[1] == U("by-priority") && SlugsTo(record.priority, segments[2], u)))
  }

  predicate CallsForById(segments: seq<Str>, record: Record, model: Model) {
    && |segments| == 3 && IsCollection(segments[0], model) && segments[1] == U("by-id")
    && FileReads(record.id, segments[2])
  }

  /** The record's own fields call for this path below /bitbucket. */
  ghost predicate CallsFor(segments: seq<Str>, record: Record, model: Model, u: Unicode, emitCanonical: bool) {
    || CallsForById(segments, record, model) || CallsForLookup(segments, record, model, u)
    || (emitCanonical && CallsForFile(segments, record, model, u))
  }

  // ---------------------------------------------------------------------------
  // The printed paths are those the fields call for
  // ---------------------------------------------------------------------------

  lemma SegmentIff(text: Str, segment: Str)
    ensures Segment(text) == Some(segment) <==> SegmentReads(text, segment)
  {}

  lemma FileIff(text: Str, file: Str)
    ensures FileReads(text, file) <==> Segment(text).Some? && file == Segment(text).value + U(".json")
  {}

  lemma FirstOfTwo(a: Option<Str>, b: Option<Str>, text: Str)
    ensures OrElse(a, b) == Some(text) <==> IsFirst([a, b], text)
  {
    var options := [a, b];
    assert options[0] == a && options[1] == b;
    if OrElse(a, b) == Some(text) { assert if a.Some? then options[0] == Some(text) else options[1] == Some(text); }
    if IsFirst(options, text) {
      var i :| 0 <= i < 2 && options[i] == Some(text) && forall j :: 0 <= j < i ==> options[j].None?;
      assert i == 1 ==> options[0].None?;
    }
  }

  lemma FirstOfThree(a: Option<Str>, b: Option<Str>, c: Option<Str>, text: Str)
    ensures OrElse(a, OrElse(b, c)) == Some(text) <==> IsFirst([a, b, c], text)
  {
    var options := [a, b, c];
    assert options[0] == a && options[1] == b && options[2] == c;
    if OrElse(a, OrElse(b, c)) == Some(text) {
      assert if a.Some? then options[0] == Some(text)
        else if b.Some? then options[1] == Some(text) else options[2] == Some(text);
    }
    if IsFirst(options, text) {
      var i :| 0 <= i < 3 && options[i] == Some(text) && forall j :: 0 <= j < i ==> options[j].None?;
      assert (i >= 1 ==> options[0].None?) && (i == 2 ==> options[1].None?);
    }
  }

  lemma RepositoryIff(record: Record, repository: Str)
    ensures RepositoryOf(record) == Some(repository) <==> SaysRepository(record, repository)
  {
    var a, b, c := ReadString(record.repository), ReadString(record.repositoryFullName), ReadString(record.fullName);
    FirstOfThree(a, b, c, repository);
    ComposedIff(record, repository);
    assert (forall i :: 0 <= i < 3 ==> [a, b, c][i].None?) <==> a.None? && b.None? && c.None? by {
      if forall i :: 0 <= i < 3 ==> [a, b, c][i].None? {
        assert [a, b, c][0].None? && [a, b, c][1].None? && [a, b, c][2].None?;
      }
    }
  }

  lemma ComposedIff(record: Record, repository: Str)
    ensures IsComposed(record, repository) <==>
      var workspace := OrElse(ReadString(record.workspace), ReadString(record.workspaceSlug));
      workspace.Some? && ReadString(record.repoSlug).Some?
        && repository == workspace.value + [SLASH] + ReadString(record.repoSlug).value
  {
    forall w: Str
      ensures OrElse(ReadString(record.workspace), ReadString(record.workspaceSlug)) == Some(w)
        <==> IsFirst([ReadString(record.workspace), ReadString(record.workspaceSlug)], w)
    {
      FirstOfTwo(ReadString(record.workspace), ReadString(record.workspaceSlug), w);
    }
  }

  lemma SplitIff(repository: Str, workspace: Str, slug: Str)
    ensures SplitRepository(repository) == Some((workspace, slug))
      <==> workspace != [] && slug != [] && Plain(workspace) && Plain(slug) && repository == workspace + [SLASH] + slug
  {
    if repository == workspace + [SLASH] + slug && Plain(workspace) {
      assert repository == workspace + ([SLASH] + slug);
      HeadOf(workspace, [SLASH] + slug);
      assert repository[|workspace| + 1..] == slug;
    }
  }

  lemma SameRoot(segments: seq<Str>, own: seq<Str>)
    requires AllPlain(segments) && AllPlain(own)
    ensures Root(segments) == Root(own) <==> segments == own
  {
    if Root(segments) == Root(own) { RootInjective(segments, own); }
  }

  lemma FilePlainIf(text: Str)
    ensures Segment(text).Some? ==> Plain(Segment(text).value + U(".json"))
  {
    if Segment(text).Some? { SegmentPlain(text); }
  }

  lemma ByIdIs(segments: seq<Str>, record: Record, model: Model)
    requires AllPlain(segments)
    ensures ByIdPath(record.id, model) == Some(Root(segments)) <==> CallsForById(segments, record, model)
  {
    if Segment(record.id).Some? {
      LiteralsPlain(model);
      SegmentPlain(record.id);
      SameRoot(segments, [Collection(model), U("by-id"), Segment(record.id).value + U(".json")]);
    }
    if |segments| == 3 { FileIff(record.id, segments[2]); }
  }

  /** The path of one label. */
  predicate LabelReads(segments: seq<Str>, bucket: Str, value: Option<Str>, id: Str, model: Model, u: Unicode) {
    |segments| == 4 && IsCollection(segments[0], model) && segments[1] == bucket && SlugsTo(value, segments[2], u)
    && FileReads(id, segments[3])
  }

  lemma LookupIs(segments: seq<Str>, bucket: Str, value: Option<Str>, id: Str, model: Model, u: Unicode)
    requires AllPlain(segments) && Plain(bucket) && LookupPath(bucket, value, id, model, u).Some?
    ensures Root(segments) in LookupPath(bucket, value, id, model, u).value
      <==> LabelReads(segments, bucket, value, id, model, u)
  {
    if ReadString(value).Some? {
      SlugSegment(ReadString(value).value, u);
      LabelPathIs(segments, bucket, SlugifyAlias(ReadString(value).value, u), id, model);
    }
  }

  lemma LabelPathIs(segments: seq<Str>, bucket: Str, slug: Str, id: Str, model: Model)
    requires AllPlain(segments) && Plain(bucket) && Segment(slug) == Some(slug) && Segment(id).Some?
    ensures Root(segments) == Root([Collection(model), bucket, slug, Segment(id).value + U(".json")])
      <==> |segments| == 4 && IsCollection(segments[0], model) && segments[1] == bucket && segments[2] == slug
           && FileReads(id, segments[3])
  {
    LiteralsPlain(model);
    SegmentPlain(slug);
    SegmentPlain(id);
    SameRoot(segments, [Collection(model), bucket, slug, Segment(id).value + U(".json")]);
    if |segments| == 4 {
      FileIff(id, segments[3]);
      CollectionIff(segments[0], model);
    }
  }

  lemma LookupsAre(segments: seq<Str>, record: Record, model: Model, u: Unicode)
    requires AllPlain(segments) && LookupPaths(record, model, u).Some?
    ensures Root(segments) in LookupPaths(record, model, u).value <==> CallsForLookup(segments, record, model, u)
  {
    BucketsPlain();
    var id := Trim(record.id);
    LookupIs(segments, U("by-state"), record.state, id, model, u);
    LookupIs(segments, U("by-assignee"), record.assignee, id, model, u);
    LookupIs(segments, U("by-creator"), record.creator, id, model, u);
    LookupIs(segments, U("by-priority"), record.priority, id, model, u);
    InLookups(Root(segments), record, model, u);
  }

  lemma InLookups(p: Str, record: Record, model: Model, u: Unicode)
    requires LookupPaths(record, model, u).Some?
    ensures p in LookupPaths(record, model, u).value <==>
      var id := Trim(record.id);
      || p in LookupPath(U("by-state"), record.state, id, model, u).value
      || p in LookupPath(U("by-assignee"), record.assignee, id, model, u).value
      || p in LookupPath(U("by-creator"), record.creator, id, model, u).value
      || p in LookupPath(U("by-priority"), record.priority, id, model, u).value
  {
    var id := Trim(record.id);
    var byState, byAssignee := LookupPath(U("by-state"), record.state, id, model, u),
                               LookupPath(U("by-assignee"), record.assignee, id, model, u);
    var byCreator, byPriority := LookupPath(U("by-creator"), record.creator, id, model, u),
                                 LookupPath(U("by-priority"), record.priority, id, model, u);
    LookupsListed(record, model, u, byState, byAssignee, byCreator, byPriority);
    InFour(p, byState.value, byAssignee.value, byCreator.value, byPriority.value);
  }

  lemma LookupsListed(record: Record, model: Model, u: Unicode, byState: Option<seq<Str>>,
                      byAssignee: Option<seq<Str>>, byCreator: Option<seq<Str>>, byPriority: Option<seq<Str>>)
    requires LookupPaths(record, model, u).Some?
    requires byState == LookupPath(U("by-state"), record.state, Trim(record.id), model, u)
    requires byAssignee == LookupPath(U("by-assignee"), record.assignee, Trim(record.id), model, u)
    requires byCreator == LookupPath(U("by-creator"), record.creator, Trim(record.id), model, u)
    requires byPriority == LookupPath(U("by-priority"), record.priority, Trim(record.id), model, u)
    ensures byState.Some? && byAssignee.Some? && byCreator.Some? && byPriority.Some?
    ensures LookupPaths(record, model, u)
      == Some(byState.value + byAssignee.value + byCreator.value + byPriority.value)
  {}

  lemma InFour(p: Str, a: seq<Str>, b: seq<Str>, c: seq<Str>, d: seq<Str>)
    ensures p in a + b + c + d <==> p in a || p in b || p in c || p in d
  {}

  lemma ScopeIff(record: Record, model: Model, first: Str, second: Str)
    ensures ScopeSegments(record, model) == Some([U("repositories"), first, second, Collection(model)])
      <==> InRepository(record, first, second)
  {
    if ScopeSegments(record, model) == Some([U("repositories"), first, second, Collection(model)]) {
      var repository := RepositoryOf(record).value;
      var (workspace, slug) := SplitRepository(repository).value;
      RepositoryIff(record, repository);
      SplitIff(repository, workspace, slug);
      ScopeParts(repository, model, workspace, slug, first, second);
    }
    if InRepository(record, first, second) {
      var workspace: Str, slug: Str :| SaysRepository(record, workspace + [SLASH] + slug) && Plain(workspace)
        && Plain(slug) && SegmentReads(workspace, first) && SegmentReads(slug, second);
      RepositoryIff(record, workspace + [SLASH] + slug);
      SplitIff(workspace + [SLASH] + slug, workspace, slug);
    }
  }

  lemma ScopeParts(repository: Str, model: Model, workspace: Str, slug: Str, first: Str, second: Str)
    requires SplitRepository(repository) == Some((workspace, slug))
    requires ScopeOfRepository(repository, model) == Some([U("repositories"), first, second, Collection(model)])
    ensures SegmentReads(workspace, first) && SegmentReads(slug, second)
  {
    var scope := [U("repositories"), first, second, Collection(model)];
    assert scope[1] == first && scope[2] == second;
  }

  lemma NameIff(record: Record, model: Model, file: Str, u: Unicode)
    ensures NameReads(record, model, file, u)
      <==> FileNameOf(record, model, u).Some? && file == FileNameOf(record, model, u).value + U(".json")
  {
    if ReadString(record.number).Some? {
      FileIff(SlugifyAlias(TitleOf(record, model), u) + U("__") + ReadString(record.number).value, file);
    }
  }

  lemma ScopeShape(record: Record, model: Model)
    requires ScopeSegments(record, model).Some?
    ensures |ScopeSegments(record, model).value| == 4
    ensures
      var scope := ScopeSegments(record, model).value;
      scope == [U("repositories"), scope[1], scope[2], Collection(model)]
  {}

  lemma CanonicalCallsFor(segments: seq<Str>, record: Record, model: Model, u: Unicode)
    requires AllPlain(segments) && CanonicalPath(record, model, u) == Some(Root(segments))
    ensures CallsForFile(segments, record, model, u)
  {
    var scope, file := CanonicalSegments(record, model, u);
    SameRoot(segments, scope + [file]);
    ScopeShape(record, model);
    NamedFile(scope, file, record, model, u);
    ScopeIff(record, model, scope[1], scope[2]);
    NameIff(record, model, file, u);
    assert segments[0] == scope[0] && segments[1] == scope[1] && segments[2] == scope[2] && segments[3] == scope[3];
  }

  lemma NamedFile(scope: seq<Str>, file: Str, record: Record, model: Model, u: Unicode)
    requires CanonicalPath(record, model, u) == Some(Root(scope + [file])) && AllPlain(scope) && Plain(file)
    requires ScopeSegments(record, model) == Some(scope)
    ensures FileNameOf(record, model, u).Some? && file == FileNameOf(record, model, u).value + U(".json")
  {
    FilePlain(record, model, u);
    var own := FileNameOf(record, model, u).value + U(".json");
    SameRoot(scope + [file], scope + [own]);
    assert (scope + [file])[|scope|] == file && (scope + [own])[|scope|] == own;
  }

  lemma FileIsCanonical(segments: seq<Str>, record: Record, model: Model, u: Unicode)
    requires CallsForFile(segments, record, model, u)
    ensures CanonicalPath(record, model, u) == Some(Root(segments))
  {
    ScopeIff(record, model, segments[1], segments[2]);
    NameIff(record, model, segments[4], u);
    CollectionIff(segments[3], model);
    FiveSegments(segments);
    CanonicalOf([segments[0], segments[1], segments[2], segments[3]], segments[4], record, model, u);
  }

  lemma FiveSegments(segments: seq<Str>)
    requires |segments| == 5
    ensures [segments[0], segments[1], segments[2], segments[3]] + [segments[4]] == segments
  {}

  lemma CollectionIff(segment: Str, model: Model)
    ensures IsCollection(segment, model) <==> segment == Collection(model)
  {}

  lemma CanonicalOf(scope: seq<Str>, file: Str, record: Record, model: Model, u: Unicode)
    requires ScopeSegments(record, model) == Some(scope)
    requires FileNameOf(record, model, u).Some? && file == FileNameOf(record, model, u).value + U(".json")
    ensures CanonicalPath(record, model, u) == Some(Root(scope + [file]))
  {}

  lemma CanonicalIs(segments: seq<Str>, record: Record, model: Model, u: Unicode)
    requires AllPlain(segments)
    ensures CanonicalPath(record, model, u) == Some(Root(segments)) <==> CallsForFile(segments, record, model, u)
  {
    if CanonicalPath(record, model, u) == Some(Root(segments)) { CanonicalCallsFor(segments, record, model, u); }
    if CallsForFile(segments, record, model, u) { FileIsCanonical(segments, record, model, u); }
  }

  /** A path below /bitbucket is one of a record's exactly when the record's own fields call for it. */
  lemma PathsAre(segments: seq<Str>, record: Record, model: Model, u: Unicode, emitCanonical: bool)
    requires AllPlain(segments) && PathsOf(record, LayoutOf(model, u), emitCanonical).Some?
    ensures Has(record, Root(segments), SchemeOf(LayoutOf(model, u), emitCanonical))
      <==> CallsFor(segments, record, model, u, emitCanonical)
  {
    HasIs(record, Root(segments), LayoutOf(model, u), emitCanonical);
    ByIdIs(segments, record, model);
    LookupsAre(segments, record, model, u);
    CanonicalIs(segments, record, model, u);
  }

  // ---------------------------------------------------------------------------
  // Whole runs
  // ---------------------------------------------------------------------------

  ghost predicate HasFile(record: Record, model: Model, u: Unicode) {
    exists segments: seq<Str> :: AllPlain(segments) && CallsForFile(segments, record, model, u)
  }

  /** The record changes what is kept under this id: it deletes it, or can be filed. */
  ghost predicate About(record: Record, id: Str, model: Model, u: Unicode) {
    && record.id == id && id != U(".") && id != U("..") && EncodeSegment(id).Some?
    && (record.deleted || HasFile(record, model, u))
  }

  lemma AcceptedIff(record: Record, model: Model, u: Unicode)
    ensures Accepted(record, LayoutOf(model, u)) <==> About(record, record.id, model, u)
  {
    HasFileIff(record, model, u);
  }

  lemma HasFileIff(record: Record, model: Model, u: Unicode)
    ensures HasFile(record, model, u) <==> CanonicalPath(record, model, u).Some?
  {
    if CanonicalPath(record, model, u).Some? {
      var scope, file := CanonicalSegments(record, model, u);
      CanonicalCallsFor(scope + [file], record, model, u);
    }
    if segments: seq<Str> :| AllPlain(segments) && CallsForFile(segments, record, model, u) {
      FileIsCanonical(segments, record, model, u);
    }
  }

  /** The records of a run, in order. */
  function Flat(batches: seq<seq<Record>>): seq<Record> {
    if batches == [] then [] else Flat(batches[..|batches| - 1]) + batches[|batches| - 1]
  }

  lemma {:induction false} LiveConcat(live: Live, a: seq<Record>, b: seq<Record>, layout: Layout)
    ensures LiveBatch(live, a + b, layout) == LiveBatch(LiveBatch(live, a, layout), b, layout)
  {
    if b == [] {
      assert a + b == a;
    } else {
      assert (a + b)[..|a + b| - 1] == a + b[..|b| - 1];
      LiveConcat(live, a, b[..|b| - 1], layout);
    }
  }

  lemma {:induction false} LiveRunIsFlat(batches: seq<seq<Record>>, layout: Layout)
    ensures LiveRun(batches, layout) == LiveBatch(map[], Flat(batches), layout)
  {
    if batches == [] {
    } else {
      LiveRunIsFlat(batches[..|batches| - 1], layout);
      LiveConcat(map[], Flat(batches[..|batches| - 1]), batches[|batches| - 1], layout);
    }
  }

  /** The last record about its id. */
  ghost predicate IsLatest(records: seq<Record>, i: nat, model: Model, u: Unicode) {
    && i < |records| && About(records[i], records[i].id, model, u)
    && forall j :: i < j < |records| ==> !About(records[j], records[i].id, model, u)
  }

  lemma NextIs(live: Live, record: Record, id: Str, model: Model, u: Unicode)
    ensures
      var next := Next(live, record, LayoutOf(model, u));
      if !About(record, id, model, u) then (id in next <==> id in live) && (id in next ==> next[id] == live[id])
      else if record.deleted then id !in next
      else id in next && next[id] == record
  {
    AcceptedIff(record, model, u);
  }

  /** A record is live exactly when the last record about its id is no deletion. */
  lemma {:induction false} LiveIsLatest(records: seq<Record>, id: Str, model: Model, u: Unicode)
    ensures
      var live := LiveBatch(map[], records, LayoutOf(model, u));
      var i := LastWhere(records, record => About(record, id, model, u));
      && (id in live <==> i >= 0 && !records[i].deleted)
      && (id in live ==> live[id] == records[i])
  {
    if records == [] {
    } else {
      var front, last := records[..|records| - 1], records[|records| - 1];
      LiveIsLatest(front, id, model, u);
      NextIs(LiveBatch(map[], front, LayoutOf(model, u)), last, id, model, u);
    }
  }

  /** The last record about some id is no deletion and its fields call for the path. */
  ghost predicate LeadsTo(segments: seq<Str>, records: seq<Record>, i: nat, model: Model, u: Unicode,
                          emitCanonical: bool)
  {
    && IsLatest(records, i, model, u) && !records[i].deleted
    && CallsFor(segments, records[i], model, u, emitCanonical)
  }

  lemma LatestIsLive(records: seq<Record>, i: nat, model: Model, u: Unicode)
    requires IsLatest(records, i, model, u) && !records[i].deleted
    ensures
      var live := LiveBatch(map[], records, LayoutOf(model, u));
      records[i].id in live && live[records[i].id] == records[i]
  {
    var id := records[i].id;
    LiveIsLatest(records, id, model, u);
    assert LastWhere(records, record => About(record, id, model, u)) == i;
  }

  lemma LiveHasLatest(records: seq<Record>, id: Str, model: Model, u: Unicode) returns (i: nat)
    requires id in LiveBatch(map[], records, LayoutOf(model, u))
    ensures IsLatest(records, i, model, u) && !records[i].deleted
    ensures records[i] == LiveBatch(map[], records, LayoutOf(model, u))[id]
  {
    LiveIsLatest(records, id, model, u);
    i := LastWhere(records, record => About(record, id, model, u));
  }

  predicate Holds(files: Files, p: Str, record: Record) { p in files && files[p] == record }

  lemma LatestIsThere(files: Files, live: Live, records: seq<Record>, i: nat, segments: seq<Str>, model: Model,
                      u: Unicode, emitCanonical: bool)
    requires AllPlain(segments) && LeadsTo(segments, records, i, model, u, emitCanonical)
    requires live == LiveBatch(map[], records, LayoutOf(model, u))
    requires Mirrors(files, live, SchemeOf(LayoutOf(model, u), emitCanonical))
    ensures Holds(files, Root(segments), records[i])
  {
    LatestIsLive(records, i, model, u);
    LiveHas(live, LayoutOf(model, u), emitCanonical, records[i]);
    PathsAre(segments, records[i], model, u, emitCanonical);
    LiveHolds(files, live, LayoutOf(model, u), emitCanonical, records[i], Root(segments));
  }

  lemma LiveHas(live: Live, layout: Layout, emitCanonical: bool, record: Record)
    requires LiveKeys(live, SchemeOf(layout, emitCanonical)) && record.id in live && live[record.id] == record
    ensures PathsOf(record, layout, emitCanonical).Some?
  {}

  lemma LiveHolds(files: Files, live: Live, layout: Layout, emitCanonical: bool, record: Record, p: Str)
    requires Mirrors(files, live, SchemeOf(layout, emitCanonical)) && record.id in live && live[record.id] == record
    requires Has(record, p, SchemeOf(layout, emitCanonical))
    ensures Holds(files, p, record)
  {}

  lemma ThereIsLatest(files: Files, live: Live, records: seq<Record>, segments: seq<Str>, model: Model, u: Unicode,
                      emitCanonical: bool)
    returns (i: nat)
    requires AllPlain(segments) && Root(segments) in files
    requires live == LiveBatch(map[], records, LayoutOf(model, u))
    requires Mirrors(files, live, SchemeOf(LayoutOf(model, u), emitCanonical))
    ensures LeadsTo(segments, records, i, model, u, emitCanonical)
  {
    assert Owned(live, Root(segments), SchemeOf(LayoutOf(model, u), emitCanonical));
    var id: Str :| id in live && Has(live[id], Root(segments), SchemeOf(LayoutOf(model, u), emitCanonical));
    i := LiveHasLatest(records, id, model, u);
    PathsAre(segments, records[i], model, u, emitCanonical);
  }

  /**
   * After every failure-free run of pull requests or issues whose ids are written alike and whose
   * canonical paths stay apart, a path below /bitbucket is there exactly when the last record about some
   * id is no deletion and its fields call for the path; it then holds that record.
   */
  lemma RunsLeadToLatest(batches: seq<seq<Record>>, model: Model, u: Unicode, emitCanonical: bool, segments: seq<Str>)
    requires ConsistentIds(IdsOf(batches)) && ApartRun(batches, LayoutOf(model, u), emitCanonical)
    requires AllPlain(segments)
    ensures
      var files, records := Run(batches, LayoutOf(model, u), emitCanonical).files, Flat(batches);
      && (Root(segments) in files <==> exists i: nat :: LeadsTo(segments, records, i, model, u, emitCanonical))
      && (forall i: nat :: LeadsTo(segments, records, i, model, u, emitCanonical) ==>
           Holds(files, Root(segments), records[i]))
  {
    var files, live := Run(batches, LayoutOf(model, u), emitCanonical).files, LiveRun(batches, LayoutOf(model, u));
    RunsMirrorRecords(batches, model, u, emitCanonical);
    LiveRunIsFlat(batches, LayoutOf(model, u));
    forall i: nat | LeadsTo(segments, Flat(batches), i, model, u, emitCanonical)
      ensures Holds(files, Root(segments), Flat(batches)[i])
    {
      LatestIsThere(files, live, Flat(batches), i, segments, model, u, emitCanonical);
    }
    if Root(segments) in files {
      var i := ThereIsLatest(files, live, Flat(batches), segments, model, u, emitCanonical);
    }
  }
}
