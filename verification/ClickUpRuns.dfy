/**
 * ClickUp tasks over whole runs of batches: the store always holds exactly the aliases of the live
 * tasks (packages/clickup/src/emit-auxiliary-files.ts:43-110). Every call on the client succeeds.
 */
module ClickUpRuns {
  import opened Wrappers
  import opened JsStrings
  import opened UriCodec
  import opened StatusSlugs
  import opened AliasSlugs
  import opened AliasStore
  import opened ConfluencePaths
  import opened ClickUp

  /** A record of a batch: a task, or a deletion with the payload that comes with it. */
  datatype Record = Full(task: Task) | Tombstone(rawId: Str, fallback: Option<ClickUp.Payload>)

  type Live = map<Str, Stored>

  /** A stored task belongs to the id in its payload and lies at the aliases of that payload. */
  function OwnId(content: Stored): Str {
    match content.payload
    case None => []
    case Some(payload) => match ReadString(payload.id) case Some(id) => id case None => []
  }

  function OwnPaths(content: Stored, t: Text): Option<seq<Str>> {
    var payload :- content.payload;
    var id :- ReadString(payload.id);
    AliasPaths(id, StateOf(payload), t)
  }

  function SchemeOf(t: Text): Scheme<Stored, Str> { Scheme(OwnId, (content: Stored) => OwnPaths(content, t)) }

  /** What is stored, the task's payload or the caller's content, carries the task's id and calls for its aliases. */
  predicate GoodTask(task: Task) {
    var stored := Content(task).payload;
    stored.Some? && ReadString(stored.value.id) == Some(task.id) && StateOf(stored.value) == StateOf(task.payload)
  }

  function PlanOf(files: Files, record: Record, t: Text): Option<Plan> {
    match record
    case Full(task) => PlanWrite(files, task, t)
    case Tombstone(rawId, fallback) => PlanDelete(files, rawId, fallback, t)
  }

  function ContentOf(record: Record): Stored {
    match record case Full(task) => Content(task) case Tombstone(_, _) => Stored(None)
  }

  /** One record of runEmitBatch: its deletes, then its writes; a planner that throws does nothing. */
  function Step(files: Files, record: Record, t: Text): Files {
    match PlanOf(files, record, t)
    case None => files
    case Some(plan) => Written(Deleted(files, plan.deletes), plan.writes, ContentOf(record))
  }

  function Run(files: Files, records: seq<Record>, t: Text): Files {
    if records == [] then files else Step(Run(files, records[..|records| - 1], t), records[|records| - 1], t)
  }

  /** The live tasks: the latest payload of each, until it is deleted. */
  function Next(live: Live, record: Record, t: Text): Live {
    match record
    case Full(task) =>
      if OwnPaths(Content(task), t).Some? then live[task.id := Content(task)] else live
    case Tombstone(rawId, _) => if ReadString(Some(rawId)).Some? then live - {Trim(rawId)} else live
  }

  function LiveRun(live: Live, records: seq<Record>, t: Text): Live {
    if records == [] then live else Next(LiveRun(live, records[..|records| - 1], t), records[|records| - 1], t)
  }

  predicate GoodRun(records: seq<Record>) {
    forall i :: 0 <= i < |records| ==> records[i].Full? ==> GoodTask(records[i].task)
  }

  // ---------------------------------------------------------------------------
  // One record
  // ---------------------------------------------------------------------------

  /** The paths of one id belong to no other live task. */
  lemma ForeignPath(live: Live, t: Text, id: Str, s: AliasState, p: Str, j: Str)
    requires GoodText(t) && LiveKeys(live, SchemeOf(t)) && Trim(id) == id && AliasPaths(id, s, t).Some?
    requires p in AliasPaths(id, s, t).value && j in live && j != id
    ensures !Has(live[j], p, SchemeOf(t))
  {
    if Has(live[j], p, SchemeOf(t)) {
      var payload := live[j].payload.value;
      TrimTwice(payload.id.value);
      TasksApart(id, s, j, StateOf(payload), p, t);
    }
  }

  /** What the by-id file of an id holds. */
  lemma AnchorHolds(files: Files, live: Live, id: Str, t: Text)
    requires GoodText(t) && Mirrors(files, live, SchemeOf(t)) && Trim(id) == id && ByIdPath(id, t).Some?
    ensures ByIdPath(id, t).value in files <==> id in live
    ensures id in live ==> files[ByIdPath(id, t).value] == live[id]
  {
    var anchor, bare := ByIdPath(id, t).value, AliasState(None, [], None, None);
    AliasPathsAreOf(id, bare, t);
    forall j | j in live && j != id ensures !Has(live[j], anchor, SchemeOf(t)) {
      ForeignPath(live, t, id, bare, anchor, j);
    }
    if id in live {
      var payload := live[id].payload.value;
      AliasPathsAreOf(id, StateOf(payload), t);
      assert Has(live[id], anchor, SchemeOf(t));
    }
    OnlyOwner(files, live, SchemeOf(t), anchor, id);
  }

  /** What the store knows of an earlier version is the live task. */
  lemma PriorIsLive(files: Files, live: Live, id: Str, t: Text)
    requires GoodText(t) && Mirrors(files, live, SchemeOf(t)) && Trim(id) == id && ByIdPath(id, t).Some?
    ensures CarriesId(files, id, t)
    ensures StoredPaths(files, id, t) == if id in live then OwnPaths(live[id], t) else Some([])
    ensures PriorState(files, ByIdPath(id, t).value)
      == if id in live then Some(StateOf(live[id].payload.value)) else None
  {
    AnchorHolds(files, live, id, t);
    if id in live { assert OwnId(live[id]) == id; }
  }

  lemma WriteReplaces(files: Files, live: Live, task: Task, t: Text)
    requires GoodText(t) && Mirrors(files, live, SchemeOf(t)) && GoodTask(task) && OwnPaths(Content(task), t).Some?
    ensures Replaces(files, Step(files, Full(task), t), live, Content(task), SchemeOf(t))
  {
    TrimTwice(Content(task).payload.value.id.value);
    AliasPathsAreOf(task.id, StateOf(task.payload), t);
    PriorIsLive(files, live, task.id, t);
    WritePlanIs(files, task, t);
    var plan, stored := PlanWrite(files, task, t).value, StoredPaths(files, task.id, t).value;
    OutdatedMembers(stored, plan.writes);
    assert forall p :: Has(Content(task), p, SchemeOf(t)) <==> p in plan.writes;
    assert forall p :: task.id in live && Has(live[task.id], p, SchemeOf(t)) <==> p in stored;
  }

  lemma WriteStep(files: Files, live: Live, task: Task, t: Text)
    requires GoodText(t) && Mirrors(files, live, SchemeOf(t)) && GoodTask(task)
    ensures Mirrors(Step(files, Full(task), t), Next(live, Full(task), t), SchemeOf(t))
  {
    if OwnPaths(Content(task), t).Some? {
      WriteReplaces(files, live, task, t);
      TrimTwice(Content(task).payload.value.id.value);
      forall j: Str, p: Str | j in live && j != task.id && Has(Content(task), p, SchemeOf(t))
        ensures !Has(live[j], p, SchemeOf(t))
      {
        ForeignPath(live, t, task.id, StateOf(task.payload), p, j);
      }
      ReplaceMirrors(files, Step(files, Full(task), t), live, Content(task), SchemeOf(t), Next(live, Full(task), t));
    }
  }

  lemma NotLive(live: Live, id: Str, t: Text)
    requires LiveKeys(live, SchemeOf(t)) && ByIdPath(id, t).None?
    ensures id !in live
  {}

  /** A deletion removes exactly its task. */
  lemma DeleteStep(files: Files, live: Live, rawId: Str, fallback: Option<ClickUp.Payload>, t: Text)
    requires GoodText(t) && Mirrors(files, live, SchemeOf(t))
    requires ReadString(Some(rawId)).Some? && PlanDelete(files, rawId, fallback, t).Some?
    ensures Mirrors(Step(files, Tombstone(rawId, fallback), t), live - {Trim(rawId)}, SchemeOf(t))
  {
    var id := Trim(rawId);
    TrimTwice(rawId);
    PriorIsLive(files, live, id, t);
    var plan, after := PlanDelete(files, rawId, fallback, t).value, Step(files, Tombstone(rawId, fallback), t);
    var state := match PriorState(files, ByIdPath(id, t).value)
      case Some(prior) => prior
      case None => FallbackState(fallback);
    assert AliasPaths(id, state, t) == Some(plan.deletes);
    assert Deletes(files, after, plan.deletes);
    forall j: Str, p: Str | j in live && j != id && p in plan.deletes ensures !Has(live[j], p, SchemeOf(t)) {
      ForeignPath(live, t, id, state, p, j);
    }
    DeleteMirrors(files, after, live, id, plan.deletes, SchemeOf(t), live - {id});
  }

  /** When a deletion cannot be planned its task is not live, unless the payload that comes with it is to blame. */
  lemma UnplannedDelete(files: Files, live: Live, rawId: Str, fallback: Option<ClickUp.Payload>, t: Text)
    requires GoodText(t) && Mirrors(files, live, SchemeOf(t))
    requires ReadString(Some(rawId)).Some? && PlanDelete(files, rawId, fallback, t).None?
    ensures Trim(rawId) !in live
  {
    TrimTwice(rawId);
    if ByIdPath(Trim(rawId), t).Some? {
      PriorIsLive(files, live, Trim(rawId), t);
    } else {
      NotLive(live, Trim(rawId), t);
    }
  }

  lemma BlankDelete(files: Files, rawId: Str, fallback: Option<ClickUp.Payload>, t: Text)
    requires ReadString(Some(rawId)).None?
    ensures Step(files, Tombstone(rawId, fallback), t) == files
  {}

  lemma TombstoneStep(files: Files, live: Live, rawId: Str, fallback: Option<ClickUp.Payload>, t: Text)
    requires GoodText(t) && Mirrors(files, live, SchemeOf(t))
    ensures Mirrors(Step(files, Tombstone(rawId, fallback), t), Next(live, Tombstone(rawId, fallback), t), SchemeOf(t))
  {
    if ReadString(Some(rawId)).None? {
      BlankDelete(files, rawId, fallback, t);
    } else if PlanDelete(files, rawId, fallback, t).Some? {
      DeleteStep(files, live, rawId, fallback, t);
    } else {
      UnplannedDelete(files, live, rawId, fallback, t);
      assert live - {Trim(rawId)} == live;
    }
  }

  lemma StepMirrors(files: Files, live: Live, record: Record, t: Text)
    requires GoodText(t) && Mirrors(files, live, SchemeOf(t)) && (record.Full? ==> GoodTask(record.task))
    ensures Mirrors(Step(files, record, t), Next(live, record, t), SchemeOf(t))
  {
    match record
    case Full(task) => WriteStep(files, live, task, t);
    case Tombstone(rawId, fallback) => TombstoneStep(files, live, rawId, fallback, t);
  }

  // ---------------------------------------------------------------------------
  // Whole runs
  // ---------------------------------------------------------------------------

  /** The texts of ClickUp's paths; names and statuses are not used. */
  function TaskText(u: Unicode): Text { TextOf(u).(alias := s => SlugifyAlias(s, u)) }

  lemma TaskTextIsGood(u: Unicode)
    ensures GoodText(TaskText(u))
  {
    TextIsGood(u);
    forall s: Str ensures SlugShape(SlugifyAlias(s, u)) && SlugifyAlias(s, u) != [] { SlugifyAliasShape(s, u); }
  }

  lemma {:induction false} RunMirrors(records: seq<Record>, t: Text)
    requires GoodText(t) && GoodRun(records)
    ensures Mirrors(Run(map[], records, t), LiveRun(map[], records, t), SchemeOf(t))
  {
    if records == [] {
    } else {
      var front := records[..|records| - 1];
      RunMirrors(front, t);
      StepMirrors(Run(map[], front, t), LiveRun(map[], front, t), records[|records| - 1], t);
    }
  }

  /**
   * From an empty store, after every run of tasks whose stored payloads carry their ids and call for
   * their aliases, and of deletions of any kind, the store holds exactly the aliases of each live
   * task's latest payload.
   */
  lemma RunsMirrorLatestTasks(records: seq<Record>, u: Unicode)
    requires GoodRun(records)
    ensures Mirrors(Run(map[], records, TaskText(u)), LiveRun(map[], records, TaskText(u)), SchemeOf(TaskText(u)))
  {
    TaskTextIsGood(u);
    RunMirrors(records, TaskText(u));
  }
}
