/**
 * What ClickUp reconciliation promises in terms of a task's own fields: which directory each field
 * calls for, and which task a path leads to after a run
 * (packages/clickup/src/emit-auxiliary-files.ts:43-110, 151-216 and
 * packages/clickup/src/path-mapper.ts:79-97).
 */
module ClickUpMeaning {
  import opened Wrappers
  import opened JsStrings
  import opened PathSegments
  import opened UriCodec
  import opened StatusSlugs
  import opened AliasSlugs
  import opened AliasStore
  import opened ConfluencePaths
  import opened ClickUp
  import opened ClickUpRuns
  import opened Latest

  // ---------------------------------------------------------------------------
  // Which field calls for which path
  // ---------------------------------------------------------------------------

  predicate SlugsTo(field: Option<Str>, slug: Str, u: Unicode) {
    ReadString(field).Some? && SlugifyAlias(ReadString(field).value, u) == slug
  }

  /** The task's own fields call for a path in this directory below the tasks, under this file name. */
  predicate CallsFor(directory: seq<Str>, name: Str, id: Str, payload: ClickUp.Payload, u: Unicode) {
    && EncodeSegment(id) == Some(name)
    && (directory == [U("by-id")]
        || (|directory| == 2
            && ((directory[0] == U("by-state") && SlugsTo(payload.state, directory[1], u))
                || (directory[0] == U("by-assignee") && Assigned(payload.assignees, directory[1]))
                || (directory[0] == U("by-creator") && EncodesTo(payload.creator, directory[1]))
                || (directory[0] == U("by-priority") && SlugsTo(payload.priority, directory[1], u)))))
  }

  predicate Assigned(assignees: seq<Option<Str>>, segment: Str) {
    exists k :: 0 <= k < |assignees| && EncodesTo(assignees[k], segment)
  }

  /** Every path that the fields call for can be printed. */
  predicate Printable(id: Str, payload: ClickUp.Payload) {
    && EncodeSegment(id).Some? && Encodable(payload.creator)
    && forall k :: 0 <= k < |payload.assignees| ==> Encodable(payload.assignees[k])
  }

  /** The path of a task in a directory below the tasks. */
  function PathIn(directory: seq<Str>, name: Str): Str {
    Join([U("clickup"), U("tasks")] + directory + [name + U(".json")])
  }

  lemma SlugIsSegment(slug: Str)
    requires SlugShape(slug) && slug != []
    ensures EncodeSegment(slug) == Some(slug)
  {
    TrimOfTight(slug);
    EncodeUnreserved(slug);
  }

  lemma SluggedSegment(field: Option<Str>, u: Unicode)
    ensures field.Some? ==> TaskText(u).segment(TaskText(u).alias(field.value)) == Some(SlugifyAlias(field.value, u))
  {
    if field.Some? {
      SlugifyAliasShape(field.value, u);
      SlugIsSegment(SlugifyAlias(field.value, u));
    }
  }

  // ---------------------------------------------------------------------------
  // The listed aliases are those the fields call for
  // ---------------------------------------------------------------------------

  lemma SamePath(directory: seq<Str>, name: Str, a: seq<Str>, i: Str)
    requires AllPlain(directory) && Plain(name) && AllPlain(a) && Plain(i)
    ensures PathIn(directory, name) == TaskPath(a, i) <==> directory == a && name == i
  {
    if PathIn(directory, name) == TaskPath(a, i) { TaskPathInjective(directory, name, a, i); }
  }

  /** The path is the one that a value calls for in a bucket. */
  predicate InBucket(directory: seq<Str>, name: Str, bucket: Str, value: Str, id: Str, t: Text) {
    && t.segment(value).Some? && directory == [bucket, t.segment(value).value]
    && t.segment(id) == Some(name)
  }

  lemma AliasPathIn(directory: seq<Str>, name: Str, bucket: Str, value: Str, id: Str, t: Text)
    requires GoodText(t) && AllPlain(directory) && Plain(name) && Plain(bucket)
    requires AliasPath(bucket, value, id, t).Some?
    ensures PathIn(directory, name) == AliasPath(bucket, value, id, t).value
      <==> InBucket(directory, name, bucket, value, id, t)
  {
    SamePath(directory, name, [bucket, t.segment(value).value], t.segment(id).value);
  }

  lemma FieldPathIn(directory: seq<Str>, name: Str, bucket: Str, field: Option<Str>, id: Str, t: Text)
    requires GoodText(t) && AllPlain(directory) && Plain(name) && Plain(bucket)
    requires FieldPath(bucket, field, id, t).Some?
    ensures PathIn(directory, name) in FieldPath(bucket, field, id, t).value
      <==> field.Some? && InBucket(directory, name, bucket, field.value, id, t)
  {
    if field.Some? { AliasPathIn(directory, name, bucket, field.value, id, t); }
  }

  lemma {:induction false} AssigneePathIn(directory: seq<Str>, name: Str, assignees: seq<Str>, id: Str, t: Text)
    requires GoodText(t) && AllPlain(directory) && Plain(name)
    requires AssigneePaths(assignees, id, t).Some?
    ensures PathIn(directory, name) in AssigneePaths(assignees, id, t).value
      <==> exists v :: v in assignees && InBucket(directory, name, U("by-assignee"), v, id, t)
  {
    if assignees == [] {
    } else {
      ClickUp.BucketsPlain();
      var front, last := assignees[..|assignees| - 1], assignees[|assignees| - 1];
      assert assignees == front + [last];
      AssigneePathIn(directory, name, front, id, t);
      AliasPathIn(directory, name, U("by-assignee"), last, id, t);
    }
  }

  lemma ByIdIn(directory: seq<Str>, name: Str, id: Str, t: Text)
    requires GoodText(t) && AllPlain(directory) && Plain(name) && ByIdPath(id, t).Some?
    ensures PathIn(directory, name) == ByIdPath(id, t).value
      <==> directory == [U("by-id")] && t.segment(id) == Some(name)
  {
    ClickUp.BucketsPlain();
    SamePath(directory, name, [U("by-id")], t.segment(id).value);
  }

  /** Which directories the aliases of a state lie in. */
  predicate Listed(directory: seq<Str>, name: Str, id: Str, s: AliasState, t: Text) {
    || (directory == [U("by-id")] && t.segment(id) == Some(name))
    || (s.state.Some? && InBucket(directory, name, U("by-state"), t.alias(s.state.value), id, t))
    || (exists v :: v in s.assignees && InBucket(directory, name, U("by-assignee"), v, id, t))
    || (s.creator.Some? && InBucket(directory, name, U("by-creator"), s.creator.value, id, t))
    || (s.priority.Some? && InBucket(directory, name, U("by-priority"), t.alias(s.priority.value), id, t))
  }

  lemma AliasPathsIn(directory: seq<Str>, name: Str, id: Str, s: AliasState, t: Text)
    requires GoodText(t) && AllPlain(directory) && Plain(name) && AliasPaths(id, s, t).Some?
    ensures PathIn(directory, name) in AliasPaths(id, s, t).value <==> Listed(directory, name, id, s, t)
  {
    ClickUp.BucketsPlain();
    ByIdIn(directory, name, id, t);
    FieldPathIn(directory, name, U("by-state"), Slugged(s.state, t), id, t);
    AssigneePathIn(directory, name, s.assignees, id, t);
    FieldPathIn(directory, name, U("by-creator"), s.creator, id, t);
    FieldPathIn(directory, name, U("by-priority"), Slugged(s.priority, t), id, t);
    InParts(PathIn(directory, name), id, s, t);
  }

  lemma InParts(p: Str, id: Str, s: AliasState, t: Text)
    requires AliasPaths(id, s, t).Some?
    ensures p in AliasPaths(id, s, t).value <==>
      || p == ByIdPath(id, t).value || p in FieldPath(U("by-state"), Slugged(s.state, t), id, t).value
      || p in AssigneePaths(s.assignees, id, t).value || p in FieldPath(U("by-creator"), s.creator, id, t).value
      || p in FieldPath(U("by-priority"), Slugged(s.priority, t), id, t).value
  {}

  lemma ListedIff(directory: seq<Str>, name: Str, id: Str, payload: ClickUp.Payload, u: Unicode)
    ensures Listed(directory, name, id, StateOf(payload), TaskText(u)) <==> CallsFor(directory, name, id, payload, u)
  {
    SluggedIff(directory, name, U("by-state"), payload.state, id, u);
    SluggedIff(directory, name, U("by-priority"), payload.priority, id, u);
    AssignedIff(directory, name, id, payload, u);
  }

  lemma SluggedIff(directory: seq<Str>, name: Str, bucket: Str, field: Option<Str>, id: Str, u: Unicode)
    ensures
      (ReadString(field).Some?
       && InBucket(directory, name, bucket, TaskText(u).alias(ReadString(field).value), id, TaskText(u)))
      <==>
      (EncodeSegment(id) == Some(name) && |directory| == 2 && directory[0] == bucket
       && SlugsTo(field, directory[1], u))
  {
    SluggedSegment(ReadString(field), u);
    if |directory| == 2 { assert directory == [directory[0], directory[1]]; }
  }

  lemma AssignedIff(directory: seq<Str>, name: Str, id: Str, payload: ClickUp.Payload, u: Unicode)
    ensures (exists v ::
               v in StateOf(payload).assignees && InBucket(directory, name, U("by-assignee"), v, id, TaskText(u)))
            <==> EncodeSegment(id) == Some(name) && |directory| == 2 && directory[0] == U("by-assignee")
                 && Assigned(payload.assignees, directory[1])
  {
    var t := TaskText(u);
    if v :| v in StateOf(payload).assignees && InBucket(directory, name, U("by-assignee"), v, id, t) {
      AssigneeIsAssigned(payload.assignees, v, directory[1]);
    }
    if |directory| == 2 && directory[0] == U("by-assignee") && Assigned(payload.assignees, directory[1])
      && EncodeSegment(id) == Some(name)
    {
      var v := AssignedAssignee(payload.assignees, directory[1]);
      assert directory == [U("by-assignee"), directory[1]];
      assert InBucket(directory, name, U("by-assignee"), v, id, t);
    }
  }

  lemma AssigneeIsAssigned(assignees: seq<Option<Str>>, v: Str, segment: Str)
    requires v in DistinctStrings(assignees) && EncodeSegment(v) == Some(segment)
    ensures Assigned(assignees, segment)
  {
    DistinctMembers(assignees, v);
    var k :| 0 <= k < |assignees| && ReadString(assignees[k]) == Some(v);
    assert EncodesTo(assignees[k], segment);
  }

  lemma AssignedAssignee(assignees: seq<Option<Str>>, segment: Str) returns (v: Str)
    requires Assigned(assignees, segment)
    ensures v in DistinctStrings(assignees) && EncodeSegment(v) == Some(segment)
  {
    var k :| 0 <= k < |assignees| && EncodesTo(assignees[k], segment);
    v := ReadString(assignees[k]).value;
    DistinctMembers(assignees, v);
  }

  /** A path is an alias of a task exactly when the task's own fields call for it. */
  lemma AliasesAre(directory: seq<Str>, name: Str, id: Str, payload: ClickUp.Payload, u: Unicode)
    requires AllPlain(directory) && Plain(name) && AliasPaths(id, StateOf(payload), TaskText(u)).Some?
    ensures PathIn(directory, name) in AliasPaths(id, StateOf(payload), TaskText(u)).value
      <==> CallsFor(directory, name, id, payload, u)
  {
    TaskTextIsGood(u);
    AliasPathsIn(directory, name, id, StateOf(payload), TaskText(u));
    ListedIff(directory, name, id, payload, u);
  }

  lemma {:induction false} AssigneesDefined(assignees: seq<Str>, id: Str, t: Text)
    requires t.segment(id).Some?
    ensures AssigneePaths(assignees, id, t).Some? <==> forall v :: v in assignees ==> t.segment(v).Some?
  {
    if assignees == [] {
    } else {
      var front, last := assignees[..|assignees| - 1], assignees[|assignees| - 1];
      assert assignees == front + [last];
      AssigneesDefined(front, id, t);
    }
  }

  /** The aliases can be printed exactly when the id and the fields that stand as they are can. */
  lemma AliasesDefined(id: Str, payload: ClickUp.Payload, u: Unicode)
    ensures AliasPaths(id, StateOf(payload), TaskText(u)).Some? <==> Printable(id, payload)
  {
    SluggedSegment(ReadString(payload.state), u);
    SluggedSegment(ReadString(payload.priority), u);
    if EncodeSegment(id).Some? {
      AssigneesDefined(StateOf(payload).assignees, id, TaskText(u));
      EncodableAssignees(payload);
    }
  }

  lemma EncodableAssignees(payload: ClickUp.Payload)
    ensures (forall v :: v in StateOf(payload).assignees ==> EncodeSegment(v).Some?)
            <==> forall k :: 0 <= k < |payload.assignees| ==> Encodable(payload.assignees[k])
  {
    forall v | v in StateOf(payload).assignees
      ensures exists k :: 0 <= k < |payload.assignees| && ReadString(payload.assignees[k]) == Some(v)
    {
      DistinctMembers(payload.assignees, v);
    }
    forall k | 0 <= k < |payload.assignees| && ReadString(payload.assignees[k]).Some?
      ensures ReadString(payload.assignees[k]).value in StateOf(payload).assignees
    {
      DistinctMembers(payload.assignees, ReadString(payload.assignees[k]).value);
    }
  }

  // ---------------------------------------------------------------------------
  // Whole runs
  // ---------------------------------------------------------------------------

  /** The payload that is stored for a written task. */
  function StoredPayload(task: Task): Option<ClickUp.Payload> {
    if task.content.Some? then task.content.value.payload else Some(task.payload)
  }

  /** The record changes the task of this id: it deletes it, or writes one whose paths can be printed. */
  predicate About(record: Record, id: Str) {
    match record
    case Full(task) => task.id == id && StoredPayload(task).Some? && Printable(id, StoredPayload(task).value)
    case Tombstone(rawId, _) => ReadString(Some(rawId)) == Some(id)
  }

  /** The last record about its task writes it. */
  predicate IsLatest(records: seq<Record>, i: nat) {
    && i < |records| && records[i].Full? && About(records[i], records[i].task.id)
    && forall j :: i < j < |records| ==> !About(records[j], records[i].task.id)
  }

  lemma NextIsLatest(live: Live, record: Record, id: Str, u: Unicode)
    requires record.Full? ==> GoodTask(record.task)
    ensures
      var next := Next(live, record, TaskText(u));
      if !About(record, id) then (id in next <==> id in live) && (id in next ==> next[id] == live[id])
      else if record.Full? then
        id in next && next[id].payload == StoredPayload(record.task)
        && (record.task.content.Some? ==> next[id] == record.task.content.value)
      else id !in next
  {
    if record.Full? { AliasesDefined(record.task.id, StoredPayload(record.task).value, u); }
  }

  /** A task is live exactly when the last record about it writes it, with what that record stores. */
  lemma {:induction false} LiveIsLatest(records: seq<Record>, id: Str, u: Unicode)
    requires GoodRun(records)
    ensures
      var live := LiveRun(map[], records, TaskText(u));
      var i := LastWhere(records, record => About(record, id));
      && (id in live <==> i >= 0 && records[i].Full?)
      && (id in live ==> live[id].payload == StoredPayload(records[i].task))
      && (id in live && records[i].task.content.Some? ==> live[id] == records[i].task.content.value)
  {
    if records == [] {
    } else {
      var front, last := records[..|records| - 1], records[|records| - 1];
      LiveIsLatest(front, id, u);
      NextIsLatest(LiveRun(map[], front, TaskText(u)), last, id, u);
    }
  }

  /** The last record about a task writes it and its stored fields call for the path. */
  predicate LeadsTo(directory: seq<Str>, name: Str, records: seq<Record>, i: nat, u: Unicode) {
    && IsLatest(records, i) && StoredPayload(records[i].task).Some?
    && CallsFor(directory, name, records[i].task.id, StoredPayload(records[i].task).value, u)
  }

  predicate Holds(files: Files, p: Str, task: Task) {
    && p in files && files[p].payload == StoredPayload(task)
    && (task.content.Some? ==> files[p] == task.content.value)
  }

  lemma LatestIsLive(records: seq<Record>, i: nat, u: Unicode)
    requires GoodRun(records) && IsLatest(records, i)
    ensures
      var live, task := LiveRun(map[], records, TaskText(u)), records[i].task;
      && task.id in live && live[task.id].payload == StoredPayload(task)
      && (task.content.Some? ==> live[task.id] == task.content.value)
  {
    var id := records[i].task.id;
    LiveIsLatest(records, id, u);
    assert LastWhere(records, record => About(record, id)) == i;
  }

  lemma LiveHasLatest(records: seq<Record>, id: Str, u: Unicode) returns (i: nat)
    requires GoodRun(records) && id in LiveRun(map[], records, TaskText(u))
    ensures IsLatest(records, i) && records[i].task.id == id
  {
    LiveIsLatest(records, id, u);
    i := LastWhere(records, record => About(record, id));
  }

  /** What a stored content has is what the fields of its own payload call for. */
  lemma HasIff(content: Stored, id: Str, directory: seq<Str>, name: Str, u: Unicode)
    requires AllPlain(directory) && Plain(name)
    requires content.payload.Some? && ReadString(content.payload.value.id) == Some(id)
    ensures Has(content, PathIn(directory, name), SchemeOf(TaskText(u))) <==>
      Printable(id, content.payload.value) && CallsFor(directory, name, id, content.payload.value, u)
  {
    AliasesDefined(id, content.payload.value, u);
    if AliasPaths(id, StateOf(content.payload.value), TaskText(u)).Some? {
      AliasesAre(directory, name, id, content.payload.value, u);
    }
  }

  lemma LatestIsThere(files: Files, live: Live, records: seq<Record>, i: nat, directory: seq<Str>, name: Str,
                      u: Unicode)
    requires AllPlain(directory) && Plain(name) && GoodRun(records) && LeadsTo(directory, name, records, i, u)
    requires live == LiveRun(map[], records, TaskText(u)) && Mirrors(files, live, SchemeOf(TaskText(u)))
    ensures Holds(files, PathIn(directory, name), records[i].task)
  {
    var id := records[i].task.id;
    LatestIsLive(records, i, u);
    assert GoodTask(records[i].task);
    HasIff(live[id], id, directory, name, u);
    LiveHolds(files, live, TaskText(u), records[i].task, PathIn(directory, name));
  }

  lemma LiveHolds(files: Files, live: Live, t: Text, task: Task, p: Str)
    requires Mirrors(files, live, SchemeOf(t)) && task.id in live && Has(live[task.id], p, SchemeOf(t))
    requires live[task.id].payload == StoredPayload(task)
    requires task.content.Some? ==> live[task.id] == task.content.value
    ensures Holds(files, p, task)
  {}

  lemma ThereIsLatest(files: Files, live: Live, records: seq<Record>, directory: seq<Str>, name: Str, u: Unicode)
    returns (i: nat)
    requires AllPlain(directory) && Plain(name) && GoodRun(records) && PathIn(directory, name) in files
    requires live == LiveRun(map[], records, TaskText(u)) && Mirrors(files, live, SchemeOf(TaskText(u)))
    ensures LeadsTo(directory, name, records, i, u)
  {
    assert Owned(live, PathIn(directory, name), SchemeOf(TaskText(u)));
    var id: Str :| id in live && Has(live[id], PathIn(directory, name), SchemeOf(TaskText(u)));
    i := LiveHasLatest(records, id, u);
    LatestIsLive(records, i, u);
    HasIff(live[id], id, directory, name, u);
  }

  /**
   * After every run a path below the tasks is there exactly when the last record about some task writes
   * it and its stored fields call for the path; it then holds what that record stores.
   */
  lemma RunsLeadToLatest(records: seq<Record>, u: Unicode, directory: seq<Str>, name: Str)
    requires GoodRun(records) && AllPlain(directory) && Plain(name)
    ensures
      var files := Run(map[], records, TaskText(u));
      && (PathIn(directory, name) in files <==> exists i: nat :: LeadsTo(directory, name, records, i, u))
      && (forall i: nat :: LeadsTo(directory, name, records, i, u) ==>
           Holds(files, PathIn(directory, name), records[i].task))
  {
    var files, live := Run(map[], records, TaskText(u)), LiveRun(map[], records, TaskText(u));
    RunsMirrorLatestTasks(records, u);
    forall i: nat | LeadsTo(directory, name, records, i, u)
      ensures Holds(files, PathIn(directory, name), records[i].task)
    {
      LatestIsThere(files, live, records, i, directory, name, u);
    }
    if PathIn(directory, name) in files {
      var i := ThereIsLatest(files, live, records, directory, name, u);
    }
  }
}
