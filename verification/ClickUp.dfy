/**
 * ClickUp task aliases and their reconciliation
 * (packages/clickup/src/emit-auxiliary-files.ts:65-110, 151-254 and
 * packages/clickup/src/path-mapper.ts:79-97), and the two implementations of diffPaths
 * (packages/confluence/src/emit-auxiliary-files.ts:425-436).
 */
module ClickUp {
  import opened Wrappers
  import opened JsStrings
  import opened PathSegments
  import opened AliasStore
  import opened ConfluencePaths

  // ---------------------------------------------------------------------------
  // Two ways to diff paths
  // ---------------------------------------------------------------------------

  /** `indexOf` of an element of the list. */
  function IndexOf(paths: seq<Str>, p: Str): (i: nat)
    requires p in paths
    ensures i < |paths| && paths[i] == p && p !in paths[..i]
  {
    if paths[0] == p then 0
    else
      assert p in paths[1..];
      var i := IndexOf(paths[1..], p);
      assert paths[..i + 1] == [paths[0]] + paths[1..][..i];
      1 + i
  }

  /** The filter of the ClickUp version, on the paths from position i on. */
  function FilterFirst(prior: seq<Str>, next: seq<Str>, i: nat := 0): seq<Str>
    requires i <= |prior|
    decreases |prior| - i
  {
    if i == |prior| then []
    else
      (if prior[i] !in next && IndexOf(prior, prior[i]) == i then [prior[i]] else []) + FilterFirst(prior, next, i + 1)
  }

  lemma {:induction false} FilterFirstFrom(prior: seq<Str>, next: seq<Str>, i: nat)
    requires i <= |prior|
    ensures Outdated(prior[..i], next) + FilterFirst(prior, next, i) == Outdated(prior, next)
    decreases |prior| - i
  {
    if i == |prior| {
      assert prior[..i] == prior;
    } else {
      FilterFirstFrom(prior, next, i + 1);
      assert prior[..i + 1][..i] == prior[..i];
      FirstOccurrence(prior, i);
      var here := if prior[i] !in next && IndexOf(prior, prior[i]) == i then [prior[i]] else [];
      assert Outdated(prior[..i + 1], next) == Outdated(prior[..i], next) + here;
      assert (Outdated(prior[..i], next) + here) + FilterFirst(prior, next, i + 1)
        == Outdated(prior[..i], next) + (here + FilterFirst(prior, next, i + 1));
    }
  }

  lemma FirstOccurrence(prior: seq<Str>, i: nat)
    requires i < |prior|
    ensures IndexOf(prior, prior[i]) == i <==> prior[i] !in prior[..i]
  {
    var first := IndexOf(prior, prior[i]);
    if first < i { assert prior[..i][first] == prior[i]; }
    assert forall k :: 0 <= k < first ==> prior[..first][k] == prior[k];
  }

  /** The version that filters by first index and the version that keeps a set of seen paths agree. */
  lemma DiffPathsAgree(prior: seq<Str>, next: seq<Str>)
    ensures FilterFirst(prior, next) == Outdated(prior, next)
  {
    FilterFirstFrom(prior, next, 0);
    assert prior[..0] == [] && [] + FilterFirst(prior, next) == FilterFirst(prior, next);
  }

  /** The Confluence version. */
  method DiffPaths(prior: seq<Str>, next: seq<Str>) returns (stale: seq<Str>)
    ensures stale == Outdated(prior, next)
    ensures stale == FilterFirst(prior, next)
  {
    DiffPathsAgree(prior, next);
    var seen: set<Str> := {};
    stale := [];
    for i := 0 to |prior|
      invariant stale == Outdated(prior[..i], next)
      invariant forall p :: p !in next ==> (p in seen <==> p in prior[..i])
    {
      assert prior[..i + 1][..i] == prior[..i] && prior[..i + 1] == prior[..i] + [prior[i]];
      if prior[i] !in next && prior[i] !in seen {
        seen := seen + {prior[i]};
        stale := stale + [prior[i]];
      }
    }
    assert prior[..|prior|] == prior;
  }

  // ---------------------------------------------------------------------------
  // Task aliases
  // ---------------------------------------------------------------------------

  /** A task payload: its id, and what is read of its state, assignees, creator and priority. */
  datatype Payload = Payload(id: Option<Str>, state: Option<Str>, assignees: seq<Option<Str>>, creator: Option<Str>,
                             priority: Option<Str>, rest: Str)

  /** What decides the aliases of a task. */
  datatype AliasState = AliasState(state: Option<Str>, assignees: seq<Str>, creator: Option<Str>, priority: Option<Str>)

  method ReadUsers(items: seq<Option<Str>>) returns (ids: seq<Str>)
    ensures ids == DistinctStrings(items) && Distinct(ids)
  {
    ids := [];
    for i := 0 to |items|
      invariant ids == DistinctStrings(items[..i]) && Distinct(ids)
    {
      assert items[..i + 1][..i] == items[..i];
      var id := ReadString(items[i]);
      if id.Some? && id.value !in ids { ids := ids + [id.value]; }
    }
    assert items[..|items|] == items;
  }

  function StateOf(payload: Payload): AliasState {
    AliasState(ReadString(payload.state), DistinctStrings(payload.assignees), ReadString(payload.creator),
               ReadString(payload.priority))
  }

  function TaskPath(segments: seq<Str>, id: Str): Str {
    Join([U("clickup"), U("tasks")] + segments + [id + U(".json")])
  }

  function ByIdPath(id: Str, t: Text): Option<Str> {
    var encoded :- t.segment(id);
    Some(TaskPath([U("by-id")], encoded))
  }

  /** One alias: None when printing throws. */
  function AliasPath(bucket: Str, value: Str, id: Str, t: Text): Option<Str> {
    var segment :- t.segment(value);
    var encoded :- t.segment(id);
    Some(TaskPath([bucket, segment], encoded))
  }

  /** The alias of an optional field. */
  function FieldPath(bucket: Str, field: Option<Str>, id: Str, t: Text): Option<seq<Str>> {
    match field
    case None => Some([])
    case Some(value) =>
      var path :- AliasPath(bucket, value, id, t);
      Some([path])
  }

  function Slugged(field: Option<Str>, t: Text): Option<Str> {
    match field case Some(value) => Some(t.alias(value)) case None => None
  }

  function AssigneePaths(assignees: seq<Str>, id: Str, t: Text): Option<seq<Str>> {
    if assignees == [] then Some([])
    else
      var before :- AssigneePaths(assignees[..|assignees| - 1], id, t);
      var path :- AliasPath(U("by-assignee"), assignees[|assignees| - 1], id, t);
      Some(before + [path])
  }

  /** taskAliasPathsFor; None when printing throws. */
  function AliasPaths(id: Str, s: AliasState, t: Text): Option<seq<Str>> {
    var byId :- ByIdPath(id, t);
    var byState :- FieldPath(U("by-state"), Slugged(s.state, t), id, t);
    var byAssignee :- AssigneePaths(s.assignees, id, t);
    var byCreator :- FieldPath(U("by-creator"), s.creator, id, t);
    var byPriority :- FieldPath(U("by-priority"), Slugged(s.priority, t), id, t);
    Some([byId] + byState + byAssignee + byCreator + byPriority)
  }

  method TaskAliasPathsFor(id: Str, s: AliasState, t: Text) returns (paths: Option<seq<Str>>)
    ensures paths == AliasPaths(id, s, t)
  {
    var byId := ByIdPath(id, t);
    if byId.None? { return None; }
    var list := [byId.value];
    var byState := FieldPath(U("by-state"), Slugged(s.state, t), id, t);
    if byState.None? { return None; }
    list := list + byState.value;
    ghost var before := list;
    for i := 0 to |s.assignees|
      invariant AssigneePaths(s.assignees[..i], id, t).Some?
      invariant list == before + AssigneePaths(s.assignees[..i], id, t).value
    {
      assert s.assignees[..i + 1][..i] == s.assignees[..i];
      var path := AliasPath(U("by-assignee"), s.assignees[i], id, t);
      if path.None? {
        ThrowingAssignee(s.assignees, i, id, t);
        return None;
      }
      list := list + [path.value];
    }
    assert s.assignees[..|s.assignees|] == s.assignees;
    var byCreator := FieldPath(U("by-creator"), s.creator, id, t);
    if byCreator.None? { return None; }
    list := list + byCreator.value;
    var byPriority := FieldPath(U("by-priority"), Slugged(s.priority, t), id, t);
    if byPriority.None? { return None; }
    return Some(list + byPriority.value);
  }

  lemma {:induction false} ThrowingAssignee(assignees: seq<Str>, i: nat, id: Str, t: Text)
    requires i < |assignees| && AliasPath(U("by-assignee"), assignees[i], id, t).None?
    ensures AssigneePaths(assignees, id, t).None?
    decreases |assignees|
  {
    if i < |assignees| - 1 { ThrowingAssignee(assignees[..|assignees| - 1], i, id, t); }
  }

  // ---------------------------------------------------------------------------
  // Plans
  // ---------------------------------------------------------------------------

  /** A stored file: the payload read back from it, if any. */
  datatype Stored = Stored(payload: Option<Payload>)

  type Files = map<Str, Stored>

  /** A task to write: its id, its payload, and the content to store when the caller gives one. */
  datatype Task = Task(id: Str, payload: Payload, content: Option<Stored>)

  datatype Plan = Plan(writes: seq<Str>, deletes: seq<Str>)

  /** The alias state of an earlier version: none when there is no payload or the payload has no id. */
  function PriorState(files: Files, byId: Str): Option<AliasState> {
    if byId !in files then None
    else
      var payload :- files[byId].payload;
      var id :- ReadString(payload.id);
      Some(StateOf(payload))
  }

  /** planTaskWrite; None when it throws. */
  function PlanWrite(files: Files, task: Task, t: Text): Option<Plan> {
    if task.id == [] then Some(Plan([], []))
    else
      var next :- AliasPaths(task.id, StateOf(task.payload), t);
      var byId :- ByIdPath(task.id, t);
      match PriorState(files, byId)
      case None => Some(Plan(next, []))
      case Some(state) =>
        var prior :- AliasPaths(task.id, state, t);
        Some(Plan(next, FilterFirst(prior, next)))
  }

  function Content(task: Task): Stored { if task.content.Some? then task.content.value else Stored(Some(task.payload)) }

  function Deleted(files: Files, paths: seq<Str>): Files { map p | p in files && p !in paths :: files[p] }

  function Written(files: Files, paths: seq<Str>, content: Stored): Files { files + map p | p in paths :: content }

  /** The aliases that the stored payload of a task calls for. */
  function StoredPaths(files: Files, id: Str, t: Text): Option<seq<Str>> {
    var byId :- ByIdPath(id, t);
    if byId !in files || files[byId].payload.None? then Some([])
    else AliasPaths(id, StateOf(files[byId].payload.value), t)
  }

  /** The stored payload of a task, if there is one, carries an id. */
  predicate CarriesId(files: Files, id: Str, t: Text) {
    match ByIdPath(id, t)
    case None => true
    case Some(byId) => byId !in files || files[byId].payload.None? || ReadString(files[byId].payload.value.id).Some?
  }

  /** What a write plan holds. */
  lemma WritePlanIs(files: Files, task: Task, t: Text)
    requires task.id != [] && PlanWrite(files, task, t).Some?
    ensures AliasPaths(task.id, StateOf(task.payload), t) == Some(PlanWrite(files, task, t).value.writes)
    ensures CarriesId(files, task.id, t) ==> StoredPaths(files, task.id, t).Some?
    ensures CarriesId(files, task.id, t) ==>
      PlanWrite(files, task, t).value.deletes
        == Outdated(StoredPaths(files, task.id, t).value, PlanWrite(files, task, t).value.writes)
    ensures !CarriesId(files, task.id, t) ==> PlanWrite(files, task, t).value.deletes == []
  {
    var next, byId := AliasPaths(task.id, StateOf(task.payload), t).value, ByIdPath(task.id, t).value;
    if PriorState(files, byId).Some? {
      DiffPathsAgree(AliasPaths(task.id, PriorState(files, byId).value, t).value, next);
    }
  }

  lemma DeletesApart(files: Files, task: Task, t: Text)
    requires PlanWrite(files, task, t).Some?
    ensures forall p :: p in PlanWrite(files, task, t).value.deletes ==> p !in PlanWrite(files, task, t).value.writes
  {
    if task.id != [] {
      WritePlanIs(files, task, t);
      if CarriesId(files, task.id, t) {
        OutdatedMembers(StoredPaths(files, task.id, t).value, PlanWrite(files, task, t).value.writes);
      }
    }
  }

  lemma Commute(files: Files, writes: seq<Str>, deletes: seq<Str>, content: Stored)
    requires forall p :: p in deletes ==> p !in writes
    ensures Written(Deleted(files, deletes), writes, content) == Deleted(Written(files, writes, content), deletes)
  {}

  /** A plan's deletes never touch its writes, so it has the same effect in either order. */
  lemma EitherOrder(files: Files, task: Task, t: Text)
    requires PlanWrite(files, task, t).Some?
    ensures
      var plan := PlanWrite(files, task, t).value;
      && (forall p :: p in plan.deletes ==> p !in plan.writes)
      && Written(Deleted(files, plan.deletes), plan.writes, Content(task))
         == Deleted(Written(files, plan.writes, Content(task)), plan.deletes)
  {
    DeletesApart(files, task, t);
    var plan := PlanWrite(files, task, t).value;
    Commute(files, plan.writes, plan.deletes, Content(task));
  }

  /**
   * The task has exactly its next aliases, all with the new content, no earlier one is left, and nothing
   * else changed.
   */
  ghost predicate Reconciled(files: Files, after: Files, prior: seq<Str>, next: seq<Str>, content: Stored) {
    && (forall p :: p in next ==> p in after && after[p] == content)
    && (forall p :: p !in next ==> (p in after <==> p in files && p !in prior) && (p in after ==> after[p] == files[p]))
  }

  lemma ReconciledIff(files: Files, prior: seq<Str>, writes: seq<Str>, deletes: seq<Str>, content: Stored)
    requires forall p :: p in prior ==> p in files
    requires forall p :: p in deletes ==> p in prior && p !in writes
    ensures Reconciled(files, Written(Deleted(files, deletes), writes, content), prior, writes, content)
      <==> forall p :: p in prior && p !in writes ==> p in deletes
  {}

  /**
   * Given a store that has all aliases its stored payload calls for, the plan turns the earlier
   * alias set into exactly the next one, for any change of state, assignees, creator and
   * priority, if and only if the stored payload carries an id or no alias is outdated.
   */
  lemma PlanReconciles(files: Files, task: Task, t: Text)
    requires task.id != [] && PlanWrite(files, task, t).Some? && StoredPaths(files, task.id, t).Some?
    requires forall p :: p in StoredPaths(files, task.id, t).value ==> p in files
    ensures
      var plan, prior := PlanWrite(files, task, t).value, StoredPaths(files, task.id, t).value;
      Reconciled(files, Written(Deleted(files, plan.deletes), plan.writes, Content(task)), prior, plan.writes,
                 Content(task))
      <==> CarriesId(files, task.id, t) || forall p :: p in prior ==> p in plan.writes
  {
    var plan, prior := PlanWrite(files, task, t).value, StoredPaths(files, task.id, t).value;
    WritePlanIs(files, task, t);
    OutdatedMembers(prior, plan.writes);
    ReconciledIff(files, prior, plan.writes, plan.deletes, Content(task));
  }

  /** What a deletion knows of its task when nothing is stored. */
  function FallbackState(fallback: Option<Payload>): AliasState {
    if fallback.Some? then StateOf(fallback.value) else AliasState(None, [], None, None)
  }

  /** planTaskDelete, with the payload that comes with the deletion, if any; None when it throws. */
  function PlanDelete(files: Files, rawId: Str, fallback: Option<Payload>, t: Text): Option<Plan> {
    match ReadString(Some(rawId))
    case None => Some(Plan([], []))
    case Some(id) =>
      var byId :- ByIdPath(id, t);
      var state := match PriorState(files, byId) case Some(prior) => prior case None => FallbackState(fallback);
      var paths :- AliasPaths(id, state, t);
      Some(Plan([], paths))
  }

  /** The aliases that come with the deletion include every stored one. */
  ghost predicate FallbackCovers(files: Files, id: Str, fallback: Option<Payload>, t: Text) {
    var own, stored := AliasPaths(id, FallbackState(fallback), t), StoredPaths(files, id, t);
    own.Some? && stored.Some? && forall p :: p in stored.value && p in files ==> p in own.value
  }

  /**
   * A deletion leaves no alias that the stored payload calls for exactly when that payload carries an
   * id, or what comes with the deletion calls for all of those aliases too.
   */
  lemma DeletionClears(files: Files, rawId: Str, fallback: Option<Payload>, t: Text)
    requires ReadString(Some(rawId)).Some? && PlanDelete(files, rawId, fallback, t).Some?
    requires StoredPaths(files, Trim(rawId), t).Some?
    ensures
      var after := Deleted(files, PlanDelete(files, rawId, fallback, t).value.deletes);
      (forall p :: p in StoredPaths(files, Trim(rawId), t).value ==> p !in after)
      <==> CarriesId(files, Trim(rawId), t) || FallbackCovers(files, Trim(rawId), fallback, t)
  {
    var id, stored := Trim(rawId), StoredPaths(files, Trim(rawId), t).value;
    var gone := PlanDelete(files, rawId, fallback, t).value.deletes;
    if CarriesId(files, id, t) {
      assert stored != [] ==> gone == stored;
    } else {
      assert AliasPaths(id, FallbackState(fallback), t) == Some(gone);
    }
  }

  // ---------------------------------------------------------------------------
  // Aliases of different tasks
  // ---------------------------------------------------------------------------

  lemma TaskPathInjective(a: seq<Str>, i: Str, b: seq<Str>, j: Str)
    requires AllPlain(a) && AllPlain(b) && Plain(i) && Plain(j) && TaskPath(a, i) == TaskPath(b, j)
    ensures a == b && i == j
  {
    assert Plain(U("clickup")) && Plain(U("tasks")) && Plain(U(".json"));
    var x, y := [U("clickup"), U("tasks")] + a + [i + U(".json")], [U("clickup"), U("tasks")] + b + [j + U(".json")];
    assert Plain(i + U(".json")) && Plain(j + U(".json"));
    JoinInjective(x, y);
    assert a == x[2..|x| - 1] && b == y[2..|y| - 1];
    assert x[|x| - 1] == i + U(".json") && y[|y| - 1] == j + U(".json");
    assert i == x[|x| - 1][..|i|] && j == y[|y| - 1][..|j|];
  }

  /** Two field aliases meet only when bucket, value and task agree. */
  lemma AliasesApart(x: Str, v: Str, i: Str, y: Str, w: Str, j: Str, t: Text)
    requires GoodText(t) && Plain(x) && Plain(y)
    requires AliasPath(x, v, i, t).Some? && AliasPath(x, v, i, t) == AliasPath(y, w, j, t)
    ensures x == y && Trim(v) == Trim(w) && Trim(i) == Trim(j)
  {
    var a, b := [x, t.segment(v).value], [y, t.segment(w).value];
    TaskPathInjective(a, t.segment(i).value, b, t.segment(j).value);
    assert a[0] == b[0] && a[1] == b[1];
  }

  /** The path is a task path of this id. */
  ghost predicate IsOf(p: Str, id: Str, t: Text) {
    t.segment(id).Some?
    && exists segments: seq<Str> :: AllPlain(segments) && p == TaskPath(segments, t.segment(id).value)
  }

  lemma BucketsPlain()
    ensures Plain(U("by-id")) && Plain(U("by-state")) && Plain(U("by-assignee")) && Plain(U("by-creator"))
      && Plain(U("by-priority"))
  {}

  lemma AliasPathIsOf(bucket: Str, value: Str, id: Str, t: Text)
    requires GoodText(t) && Plain(bucket) && AliasPath(bucket, value, id, t).Some?
    ensures IsOf(AliasPath(bucket, value, id, t).value, id, t)
  {
    var segments := [bucket, t.segment(value).value];
    assert AllPlain(segments);
  }

  lemma {:induction false} AssigneePathsAreOf(assignees: seq<Str>, id: Str, t: Text)
    requires GoodText(t) && AssigneePaths(assignees, id, t).Some?
    ensures forall p :: p in AssigneePaths(assignees, id, t).value ==> IsOf(p, id, t)
  {
    if assignees == [] {
    } else {
      BucketsPlain();
      AssigneePathsAreOf(assignees[..|assignees| - 1], id, t);
      AliasPathIsOf(U("by-assignee"), assignees[|assignees| - 1], id, t);
    }
  }

  lemma FieldPathIsOf(bucket: Str, field: Option<Str>, id: Str, t: Text)
    requires GoodText(t) && Plain(bucket) && FieldPath(bucket, field, id, t).Some?
    ensures forall p :: p in FieldPath(bucket, field, id, t).value ==> IsOf(p, id, t)
  {
    if field.Some? { AliasPathIsOf(bucket, field.value, id, t); }
  }

  lemma ByIdIsOf(id: Str, t: Text)
    requires GoodText(t) && ByIdPath(id, t).Some?
    ensures IsOf(ByIdPath(id, t).value, id, t)
  {
    BucketsPlain();
    assert AllPlain([U("by-id")]);
  }

  /** Every alias of a task, the by-id one among them, is a path of its id. */
  lemma AliasPathsAreOf(id: Str, s: AliasState, t: Text)
    requires GoodText(t) && AliasPaths(id, s, t).Some?
    ensures forall p :: p in AliasPaths(id, s, t).value ==> IsOf(p, id, t)
    ensures ByIdPath(id, t).Some? && ByIdPath(id, t).value in AliasPaths(id, s, t).value
  {
    BucketsPlain();
    ByIdIsOf(id, t);
    FieldPathIsOf(U("by-state"), Slugged(s.state, t), id, t);
    AssigneePathsAreOf(s.assignees, id, t);
    FieldPathIsOf(U("by-creator"), s.creator, id, t);
    FieldPathIsOf(U("by-priority"), Slugged(s.priority, t), id, t);
  }

  lemma IsOfOne(p: Str, i: Str, j: Str, t: Text)
    requires GoodText(t) && IsOf(p, i, t) && IsOf(p, j, t)
    ensures Trim(i) == Trim(j)
  {
    var a: seq<Str> :| AllPlain(a) && p == TaskPath(a, t.segment(i).value);
    var b: seq<Str> :| AllPlain(b) && p == TaskPath(b, t.segment(j).value);
    TaskPathInjective(a, t.segment(i).value, b, t.segment(j).value);
  }

  /** No alias of one task, by-id aliases included, is an alias of another. */
  lemma TasksApart(i: Str, r: AliasState, j: Str, s: AliasState, p: Str, t: Text)
    requires GoodText(t) && AliasPaths(i, r, t).Some? && AliasPaths(j, s, t).Some?
    requires p in AliasPaths(i, r, t).value && p in AliasPaths(j, s, t).value
    ensures Trim(i) == Trim(j)
  {
    AliasPathsAreOf(i, r, t);
    AliasPathsAreOf(j, s, t);
    IsOfOne(p, i, j, t);
  }
}
