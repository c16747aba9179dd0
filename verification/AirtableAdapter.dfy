/**
 * Airtable change ingestion: change descriptors expanded into events, each merged onto the stored
 * file (packages/airtable/src/airtable-adapter.ts:260-411, 660-691, 812-886).
 */
module AirtableAdapter {
  import opened Wrappers
  import opened JsStrings
  import AirtablePaths

  /** A payload value: an object, by key, or any other JSON value. Inner values are JSON texts. */
  datatype Value = Nested(entries: map<Str, Str>) | Flat(json: Str)

  type Payload = map<Str, Value>

  /** A stored file: what renderContent takes from the event besides its payload, and the payload. */
  datatype File = File(header: Str, deleted: bool, payload: Payload)

  type Files = map<Str, File>

  /**
   * A normalised event on a path, with the path to report when a call fails; an event that cannot be
   * normalised or printed is broken.
   */
  datatype Event =
    | Upsert(path: Str, fallback: Str, header: Str, payload: Payload)
    | Delete(path: Str, fallback: Str, header: Str, payload: Payload)
    | Broken(fallback: Str)

  /** Which of the optional calls the client has. */
  datatype Client = Client(hasRead: bool, hasDelete: bool)

  /** How the client answers the calls for one event: in full, with a failed read, or with a failed write or delete. */
  datatype Luck = Fine | ReadFails | CallFails

  datatype Result = Result(writes: nat, deletes: nat, paths: seq<Str>, errors: seq<Str>)

  // ---------------------------------------------------------------------------
  // Merging
  // ---------------------------------------------------------------------------

  const WEBHOOK: Str := U("_webhook")
  const FIELDS: Str := U("fields")
  const CELLS: Str := U("cellValuesByFieldId")

  /** mergeRecordMap: where both values are objects, the delta is laid over the stored one. */
  function MergeValue(stored: Option<Value>, delta: Value): Value {
    if stored.Some? && stored.value.Nested? && delta.Nested? then Nested(stored.value.entries + delta.entries)
    else delta
  }

  function Find(payload: Payload, key: Str): Option<Value> { if key in payload then Some(payload[key]) else None }

  predicate IsRecordMap(key: Str) { key == FIELDS || key == CELLS }

  /** mergeFallbackPayload */
  function Merge(stored: Payload, delta: Payload): Payload {
    var kept := stored - {WEBHOOK};
    kept + map key | key in delta :: if IsRecordMap(key) then MergeValue(Find(kept, key), delta[key]) else delta[key]
  }

  /** readExistingPayload, with nothing to merge onto as an empty payload. */
  function Existing(file: Option<File>, client: Client): Payload {
    if client.hasRead && file.Some? then file.value.payload else map[]
  }

  /** What an event makes of the file at its own path. */
  function Applied(file: Option<File>, event: Event, client: Client): Option<File> {
    match event
    case Upsert(_, _, header, payload) => Some(File(header, false, Merge(Existing(file, client), payload)))
    case Delete(_, _, header, payload) => if client.hasDelete then None else Some(File(header, true, payload))
    case Broken(_) => file
  }

  function FileAt(files: Files, path: Str): Option<File> { if path in files then Some(files[path]) else None }

  function Put(files: Files, path: Str, file: Option<File>): Files {
    match file case Some(f) => files[path := f] case None => files - {path}
  }

  function Ingest(files: Files, event: Event, client: Client): Files {
    if event.Broken? then files else Put(files, event.path, Applied(FileAt(files, event.path), event, client))
  }

  function IngestAll(files: Files, events: seq<Event>, client: Client): Files {
    if events == [] then files
    else Ingest(IngestAll(files, events[..|events| - 1], client), events[|events| - 1], client)
  }

  /** What one event adds to the result. */
  function Report(result: Result, event: Event, client: Client): Result {
    match event
    case Upsert(path, _, _, _) => result.(writes := result.writes + 1, paths := result.paths + [path])
    case Delete(path, _, _, _) =>
      Result(result.writes + (if client.hasDelete then 0 else 1), result.deletes + 1, result.paths + [path],
             result.errors)
    case Broken(fallback) => Failed(result, fallback)
  }

  /** The catch block of ingestPayload: an empty fallback path is not listed. */
  function Failed(result: Result, fallback: Str): Result {
    result.(paths := result.paths + (if fallback == [] then [] else [fallback]), errors := result.errors + [fallback])
  }

  function ReportAll(result: Result, events: seq<Event>, client: Client): Result {
    if events == [] then result
    else Report(ReportAll(result, events[..|events| - 1], client), events[|events| - 1], client)
  }

  // ---------------------------------------------------------------------------
  // The same with failing calls
  // ---------------------------------------------------------------------------

  /** A failed read counts as a missing file; a failed write or delete leaves the file. */
  function Tried(file: Option<File>, event: Event, luck: Luck, client: Client): Option<File> {
    match luck
    case Fine => Applied(file, event, client)
    case ReadFails => Applied(if event.Upsert? then None else file, event, client)
    case CallFails => file
  }

  function Try(files: Files, event: Event, luck: Luck, client: Client): Files {
    if event.Broken? then files else Put(files, event.path, Tried(FileAt(files, event.path), event, luck, client))
  }

  function ReportTry(result: Result, event: Event, luck: Luck, client: Client): Result {
    if luck == CallFails then Failed(result, event.fallback) else Report(result, event, client)
  }

  type Delivery = seq<(Event, Luck)>

  function Deliver(files: Files, tries: Delivery, client: Client): Files {
    if tries == [] then files
    else Try(Deliver(files, tries[..|tries| - 1], client), tries[|tries| - 1].0, tries[|tries| - 1].1, client)
  }

  function ReportAllTries(result: Result, tries: Delivery, client: Client): Result {
    if tries == [] then result
    else ReportTry(ReportAllTries(result, tries[..|tries| - 1], client), tries[|tries| - 1].0, tries[|tries| - 1].1,
                   client)
  }

  /** The events with the luck they meet, counted from the first event of the batch. */
  function Lucky(events: seq<Event>, from: nat, luck: nat -> Luck): Delivery {
    seq(|events|, i requires 0 <= i < |events| => (events[i], luck(from + i)))
  }

  // ---------------------------------------------------------------------------
  // Expanding change descriptors
  // ---------------------------------------------------------------------------

  type Cells = map<Str, Str>

  /** The changes of one table, in the entry order of the object; None where a field is not an array or object. */
  datatype TableChange = TableChange(created: seq<(Str, Cells)>, changed: seq<(Str, Cells)>,
                                     destroyed: seq<Option<Str>>)

  /** A fetched payload: a change descriptor, or one that is already an event. */
  datatype Descriptor =
    | Changes(baseId: Option<Str>, tables: seq<(Str, Option<TableChange>)>)
    | Shaped(event: Event)

  /** Where the events of a notification are stored when their own ids are blank. */
  datatype Context = Context(baseId: Str, configBaseId: Option<Str>, configTableId: Option<Str>)

  function RecordPathFor(baseId: Str, tableId: Str, recordId: Str, context: Context): Option<Str> {
    var base :- OrElse(ReadString(Some(baseId)), context.configBaseId);
    var table :- OrElse(ReadString(Some(tableId)), context.configTableId);
    AirtablePaths.RecordPath(base, table, Trim(recordId))
  }

  const UNMAPPED: Str := U("/airtable/unmapped-webhook.json")

  /** inferFallbackPath: the record's own path without the configuration, or a fixed one when that cannot be printed. */
  function FallbackPath(baseId: Str, tableId: Str, recordId: Str): Str {
    match RecordPathFor(baseId, tableId, recordId, Context([], None, None))
    case Some(path) => path
    case None => UNMAPPED
  }

  function Ids(baseId: Str, tableId: Str, recordId: Str): Payload {
    map[U("baseId") := Flat(baseId), U("tableId") := Flat(tableId), U("id") := Flat(recordId)]
  }

  function UpsertEvent(baseId: Str, tableId: Str, action: Str, entry: (Str, Cells), context: Context): Event {
    match RecordPathFor(baseId, tableId, entry.0, context)
    case None => Broken(UNMAPPED)
    case Some(path) =>
      Upsert(path, FallbackPath(baseId, tableId, entry.0), U("record.") + action + [SLASH] + Trim(entry.0),
             Ids(baseId, tableId, entry.0)[FIELDS := Nested(entry.1)])
  }

  function DeleteEvent(baseId: Str, tableId: Str, recordId: Str, context: Context): Event {
    match RecordPathFor(baseId, tableId, recordId, context)
    case None => Broken(UNMAPPED)
    case Some(path) =>
      Delete(path, FallbackPath(baseId, tableId, recordId), U("record.delete/") + recordId,
             Ids(baseId, tableId, recordId)[WEBHOOK := Nested(map[U("action") := U("delete")])])
  }

  function Mapped(entries: seq<(Str, Cells)>, eventOf: ((Str, Cells)) -> Event): (r: seq<Event>)
    ensures |r| == |entries|
  {
    seq(|entries|, i requires 0 <= i < |entries| => eventOf(entries[i]))
  }

  function UpsertEvents(baseId: Str, tableId: Str, action: Str, entries: seq<(Str, Cells)>, context: Context)
    : seq<Event>
  {
    Mapped(entries, entry => UpsertEvent(baseId, tableId, action, entry, context))
  }

  function DeleteEvents(baseId: Str, tableId: Str, ids: seq<Option<Str>>, context: Context): seq<Event> {
    if ids == [] then []
    else
      var last := ReadString(ids[|ids| - 1]);
      DeleteEvents(baseId, tableId, ids[..|ids| - 1], context)
      + if last.Some? then [DeleteEvent(baseId, tableId, last.value, context)] else []
  }

  /** The creations of a table, then its changes, then its deletions. */
  function TableEvents(baseId: Str, table: (Str, Option<TableChange>), context: Context): seq<Event> {
    match table.1
    case None => []
    case Some(change) =>
      UpsertEvents(baseId, table.0, U("create"), change.created, context)
      + UpsertEvents(baseId, table.0, U("update"), change.changed, context)
      + DeleteEvents(baseId, table.0, change.destroyed, context)
  }

  function TablesEvents(baseId: Str, tables: seq<(Str, Option<TableChange>)>, context: Context): seq<Event> {
    if tables == [] then []
    else TablesEvents(baseId, tables[..|tables| - 1], context) + TableEvents(baseId, tables[|tables| - 1], context)
  }

  /** expandMaterializedPayload */
  function Expand(descriptor: Descriptor, context: Context): seq<Event> {
    match descriptor
    case Shaped(event) => [event]
    case Changes(baseId, tables) =>
      TablesEvents(match ReadString(baseId) case Some(id) => id case None => context.baseId, tables, context)
  }

  function ExpandAll(descriptors: seq<Descriptor>, context: Context): seq<Event> {
    if descriptors == [] then []
    else ExpandAll(descriptors[..|descriptors| - 1], context) + Expand(descriptors[|descriptors| - 1], context)
  }

  // ---------------------------------------------------------------------------
  // The adapter
  // ---------------------------------------------------------------------------

  /** The adapter ingesting one batch; `luck` is how the client answers for its first event, its second and so on. */
  class Adapter {
    var files: Files
    var result: Result
    var tries: nat
    const client: Client
    const context: Context
    const luck: nat -> Luck

    constructor (files: Files, client: Client, context: Context, luck: nat -> Luck)
      ensures this.files == files && this.client == client && this.context == context && this.luck == luck
      ensures result == Result(0, 0, [], []) && tries == 0
    {
      this.files, this.client, this.context, this.luck := files, client, context, luck;
      this.result, this.tries := Result(0, 0, [], []), 0;
    }

    /** A read that fails counts as a missing file. */
    method ReadExistingPayload(path: Str) returns (payload: Payload)
      ensures payload == if luck(tries) == ReadFails then map[] else Existing(FileAt(files, path), client)
    {
      if !client.hasRead || luck(tries) == ReadFails || path !in files { return map[]; }
      return files[path].payload;
    }

    method IngestPayload(event: Event)
      modifies this
      ensures tries == old(tries) + 1
      ensures files == Try(old(files), event, luck(old(tries)), client)
      ensures result == ReportTry(old(result), event, luck(old(tries)), client)
    {
      match event {
        case Broken(fallback) =>
          ReportFailure(fallback);
        case Delete(path, fallback, header, payload) =>
          if luck(tries) == CallFails {
            ReportFailure(fallback);
          } else if client.hasDelete {
            files := files - {path};
            result := result.(deletes := result.deletes + 1, paths := result.paths + [path]);
          } else {
            files := files[path := File(header, true, payload)];
            result := result.(writes := result.writes + 1, deletes := result.deletes + 1,
                              paths := result.paths + [path]);
          }
        case Upsert(path, fallback, header, payload) =>
          var existing := ReadExistingPayload(path);
          if luck(tries) == CallFails {
            ReportFailure(fallback);
          } else {
            files := files[path := File(header, false, Merge(existing, payload))];
            result := result.(writes := result.writes + 1, paths := result.paths + [path]);
          }
      }
      tries := tries + 1;
    }

    method ReportFailure(fallback: Str)
      modifies this`result
      ensures result == Failed(old(result), fallback)
    {
      result := result.(errors := result.errors + [fallback]);
      if fallback != [] { result := result.(paths := result.paths + [fallback]); }
    }

    method ExpandMaterializedPayload(descriptor: Descriptor) returns (events: seq<Event>)
      ensures events == Expand(descriptor, context)
    {
      match descriptor
      case Shaped(event) => return [event];
      case Changes(raw, tables) =>
        var baseId := match ReadString(raw) case Some(id) => id case None => context.baseId;
        events := [];
        for i := 0 to |tables|
          invariant events == TablesEvents(baseId, tables[..i], context)
        {
          assert tables[..i + 1][..i] == tables[..i];
          var more := ExpandTable(baseId, tables[i]);
          events := events + more;
        }
        assert tables[..|tables|] == tables;
    }

    /** `upsert` for every entry of an object of records. */
    method UpsertEach(baseId: Str, tableId: Str, action: Str, entries: seq<(Str, Cells)>) returns (events: seq<Event>)
      ensures events == UpsertEvents(baseId, tableId, action, entries, context)
    {
      var eventOf := entry => UpsertEvent(baseId, tableId, action, entry, context);
      events := [];
      for i := 0 to |entries|
        invariant events == Mapped(entries[..i], eventOf)
      {
        MappedSnoc(entries, i, eventOf);
        events := events + [eventOf(entries[i])];
      }
      assert entries[..|entries|] == entries;
    }

    method ExpandTable(baseId: Str, table: (Str, Option<TableChange>)) returns (events: seq<Event>)
      ensures events == TableEvents(baseId, table, context)
    {
      events := [];
      if table.1.None? { return; }
      var change := table.1.value;
      events := UpsertEach(baseId, table.0, U("create"), change.created);
      var updates := UpsertEach(baseId, table.0, U("update"), change.changed);
      events := events + updates;
      ghost var changed := events;
      for i := 0 to |change.destroyed|
        invariant events == changed + DeleteEvents(baseId, table.0, change.destroyed[..i], context)
      {
        assert change.destroyed[..i + 1][..i] == change.destroyed[..i];
        var recordId := ReadString(change.destroyed[i]);
        if recordId.Some? { events := events + [DeleteEvent(baseId, table.0, recordId.value, context)]; }
      }
      assert change.destroyed[..|change.destroyed|] == change.destroyed;
    }

    /** The inner loop: the events of one descriptor. */
    method IngestEvents(events: seq<Event>)
      modifies this
      ensures tries == old(tries) + |events|
      ensures files == Deliver(old(files), Lucky(events, old(tries), luck), client)
      ensures result == ReportAllTries(old(result), Lucky(events, old(tries), luck), client)
    {
      ghost var all := Lucky(events, tries, luck);
      for i := 0 to |events|
        invariant tries == old(tries) + i && all == Lucky(events, old(tries), luck)
        invariant files == Deliver(old(files), all[..i], client)
        invariant result == ReportAllTries(old(result), all[..i], client)
      {
        assert all[..i + 1][..i] == all[..i] && all[..i + 1][i] == (events[i], luck(tries));
        IngestPayload(events[i]);
      }
      assert all[..|events|] == all;
    }

    method IngestMaterializedPayloads(descriptors: seq<Descriptor>)
      requires tries == 0
      modifies this
      ensures files == Deliver(old(files), Lucky(ExpandAll(descriptors, context), 0, luck), client)
      ensures result == ReportAllTries(old(result), Lucky(ExpandAll(descriptors, context), 0, luck), client)
    {
      for i := 0 to |descriptors|
        invariant tries == |ExpandAll(descriptors[..i], context)|
        invariant files == Deliver(old(files), Lucky(ExpandAll(descriptors[..i], context), 0, luck), client)
        invariant result == ReportAllTries(old(result), Lucky(ExpandAll(descriptors[..i], context), 0, luck), client)
      {
        assert descriptors[..i + 1][..i] == descriptors[..i];
        ghost var before := ExpandAll(descriptors[..i], context);
        var events := ExpandMaterializedPayload(descriptors[i]);
        LuckyConcat(before, events, luck);
        DeliverConcat(old(files), Lucky(before, 0, luck), Lucky(events, |before|, luck), client);
        ReportConcat(old(result), Lucky(before, 0, luck), Lucky(events, |before|, luck), client);
        IngestEvents(events);
      }
      assert descriptors[..|descriptors|] == descriptors;
    }
  }

  lemma LuckyConcat(a: seq<Event>, b: seq<Event>, luck: nat -> Luck)
    ensures Lucky(a + b, 0, luck) == Lucky(a, 0, luck) + Lucky(b, |a|, luck)
  {}

  lemma {:induction false} DeliverConcat(files: Files, a: Delivery, b: Delivery, client: Client)
    ensures Deliver(files, a + b, client) == Deliver(Deliver(files, a, client), b, client)
  {
    if b == [] {
      assert a + b == a;
    } else {
      assert (a + b)[..|a + b| - 1] == a + b[..|b| - 1];
      DeliverConcat(files, a, b[..|b| - 1], client);
    }
  }

  lemma {:induction false} ReportConcat(result: Result, a: Delivery, b: Delivery, client: Client)
    ensures ReportAllTries(result, a + b, client) == ReportAllTries(ReportAllTries(result, a, client), b, client)
  {
    if b == [] {
      assert a + b == a;
    } else {
      assert (a + b)[..|a + b| - 1] == a + b[..|b| - 1];
      ReportConcat(result, a, b[..|b| - 1], client);
    }
  }

  /** When every call succeeds, the batch is the plain one. */
  lemma {:induction false} FairDelivery(files: Files, result: Result, tries: Delivery, client: Client)
    requires forall i :: 0 <= i < |tries| ==> tries[i].1 == Fine
    ensures Deliver(files, tries, client) == IngestAll(files, EventsOf(tries), client)
    ensures ReportAllTries(result, tries, client) == ReportAll(result, EventsOf(tries), client)
  {
    if tries == [] {
    } else {
      FairDelivery(files, result, tries[..|tries| - 1], client);
      assert EventsOf(tries)[..|tries| - 1] == EventsOf(tries[..|tries| - 1]);
    }
  }

  function EventsOf(tries: Delivery): seq<Event> { seq(|tries|, i requires 0 <= i < |tries| => tries[i].0) }

  lemma MappedSnoc(entries: seq<(Str, Cells)>, i: nat, eventOf: ((Str, Cells)) -> Event)
    requires i < |entries|
    ensures Mapped(entries[..i + 1], eventOf) == Mapped(entries[..i], eventOf) + [eventOf(entries[i])]
  {}

  lemma {:induction false} IngestConcat(files: Files, a: seq<Event>, b: seq<Event>, client: Client)
    ensures IngestAll(files, a + b, client) == IngestAll(IngestAll(files, a, client), b, client)
  {
    if b == [] {
      assert a + b == a;
    } else {
      assert (a + b)[..|a + b| - 1] == a + b[..|b| - 1];
      IngestConcat(files, a, b[..|b| - 1], client);
    }
  }
}
