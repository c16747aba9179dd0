/**
 * What Airtable ingestion promises in terms of the change descriptors themselves: the last change that
 * names a record decides whether its file is there, and the last one that names a cell decides the cell
 * (packages/airtable/src/airtable-adapter.ts:260-376, 660-691, 812-886).
 */
module AirtableMeaning {
  import opened Wrappers
  import opened JsStrings
  import opened AirtableAdapter
  import opened AirtableReplay
  import AirtablePaths

  // ---------------------------------------------------------------------------
  // What a descriptor says of a path
  // ---------------------------------------------------------------------------

  datatype Group = Created | Changed | Destroyed

  /** Where a change stands: the descriptor, the table in it, the group in that, and the entry in that. */
  datatype Place = Place(descriptor: nat, table: nat, group: Group, entry: nat)

  function Order(group: Group): nat { match group case Created => 0 case Changed => 1 case Destroyed => 2 }

  predicate Precedes(a: Place, b: Place) {
    || a.descriptor < b.descriptor
    || (a.descriptor == b.descriptor
        && (a.table < b.table
            || (a.table == b.table
                && (Order(a.group) < Order(b.group) || (a.group == b.group && a.entry < b.entry)))))
  }

  /**
   * What a change says of a record: it is gone, with this event and these ids to write where no file can be
   * deleted, or these are its event, ids and cells; `clears` says that its earlier cells go.
   */
  datatype Word =
    | Gone(header: Str, facts: Payload)
    | Told(header: Str, facts: Payload, cells: Cells, clears: bool)

  /** The text, or else the fallback. */
  predicate Reads(text: Str, fallback: Option<Str>, read: Str) {
    if Trim(text) != [] then read == Trim(text) else fallback == Some(read)
  }

  /** The record's file lies in its base and table, those of the configuration standing in for blank ids. */
  ghost predicate Names(baseId: Str, tableId: Str, recordId: Str, context: Context, path: Str) {
    exists base: Str, table: Str ::
      Reads(baseId, context.configBaseId, base) && Reads(tableId, context.configTableId, table)
        && AirtablePaths.PathOf(AirtablePaths.Record(base, table, recordId)) == Some(path)
  }

  /** What a created or changed record says: what happened to it, its ids and its cells. */
  function WordOf(baseId: Str, tableId: Str, happened: Str, entry: (Str, Cells)): Word {
    Told(happened + Trim(entry.0), Facts(baseId, tableId, entry.0), entry.1, false)
  }

  function Facts(baseId: Str, tableId: Str, recordId: Str): Payload {
    map[U("baseId") := Flat(baseId), U("tableId") := Flat(tableId), U("id") := Flat(recordId)]
  }

  function GoneWord(baseId: Str, tableId: Str, recordId: Str): Word {
    Gone(U("record.delete/") + recordId,
         Facts(baseId, tableId, recordId)[U("_webhook") := Nested(map[U("action") := U("delete")])])
  }

  ghost function EntryWord(baseId: Str, tableId: Str, happened: Str, entries: seq<(Str, Cells)>, i: nat,
                           context: Context, path: Str): Option<Word>
  {
    if i < |entries| && Names(baseId, tableId, entries[i].0, context, path) then
      Some(WordOf(baseId, tableId, happened, entries[i]))
    else None
  }

  ghost function DestroyedWord(baseId: Str, tableId: Str, ids: seq<Option<Str>>, i: nat, context: Context, path: Str)
    : Option<Word>
  {
    if i < |ids| && ReadString(ids[i]).Some? && Names(baseId, tableId, ReadString(ids[i]).value, context, path) then
      Some(GoneWord(baseId, tableId, ReadString(ids[i]).value))
    else None
  }

  ghost function TableWord(baseId: Str, tableId: Str, change: TableChange, group: Group, i: nat, context: Context,
                           path: Str): Option<Word>
  {
    match group
    case Created => EntryWord(baseId, tableId, U("record.create/"), change.created, i, context, path)
    case Changed => EntryWord(baseId, tableId, U("record.update/"), change.changed, i, context, path)
    case Destroyed => DestroyedWord(baseId, tableId, change.destroyed, i, context, path)
  }

  /** A ready-made event may carry something else than an object as its fields, which replaces them. */
  predicate Replaces(payload: Payload) { FIELDS in payload && payload[FIELDS].Flat? }

  /** What an event that comes ready-made says. */
  function ShapedWord(event: Event, path: Str): Option<Word> {
    match event
    case Broken(_) => None
    case Delete(p, _, header, _) => if p == path then Some(Gone(header, map[])) else None
    case Upsert(p, _, header, payload) =>
      if p == path then Some(Told(header, map[], Entries(payload, FIELDS), Replaces(payload))) else None
  }

  /** What stands at a place about the record of a path. */
  ghost function WordAt(descriptors: seq<Descriptor>, context: Context, path: Str, at: Place): Option<Word> {
    if at.descriptor >= |descriptors| then None
    else
      match descriptors[at.descriptor]
      case Shaped(event) => if at == Place(at.descriptor, 0, Created, 0) then ShapedWord(event, path) else None
      case Changes(baseId, tables) =>
        if at.table >= |tables| || tables[at.table].1.None? then None
        else
          TableWord(if ReadString(baseId).Some? then ReadString(baseId).value else context.baseId, tables[at.table].0,
                    tables[at.table].1.value, at.group, at.entry, context, path)
  }

  // ---------------------------------------------------------------------------
  // The last word
  // ---------------------------------------------------------------------------

  /** The last place before a bound that satisfies a predicate. */
  ghost predicate Last(speaks: Place -> bool, at: Place, bound: Place) {
    && speaks(at) && Precedes(at, bound)
    && forall b: Place :: speaks(b) && Precedes(b, bound) ==> b == at || Precedes(b, at)
  }

  ghost predicate Silent(speaks: Place -> bool, bound: Place) {
    forall b: Place :: speaks(b) ==> !Precedes(b, bound)
  }

  type Speaker = Place -> Option<Word>

  function Speaks(word: Speaker): Place -> bool { at => word(at).Some? }

  /** The change decides the cell: it removes the record, clears its cells or brings this one. */
  function Decides(word: Speaker, key: Str): Place -> bool {
    at => word(at).Some? && (word(at).value.Gone? || word(at).value.clears || key in word(at).value.cells)
  }

  predicate Holds(payload: Payload, facts: Payload) {
    forall key :: key in facts ==> Find(payload, key) == Some(facts[key])
  }

  /** The file does what the last change says. */
  predicate Obeys(file: Option<File>, word: Word, client: Client) {
    match word
    case Gone(header, facts) =>
      if client.hasDelete then file.None?
      else file.Some? && file.value.deleted && file.value.header == header && Holds(file.value.payload, facts)
    case Told(header, facts, cells, _) =>
      && file.Some? && !file.value.deleted && file.value.header == header && Holds(file.value.payload, facts)
      && (forall key :: key in cells ==> key in FieldsOf(file) && FieldsOf(file)[key] == cells[key])
  }

  predicate CellIs(file: Option<File>, key: Str, word: Word) {
    match word
    case Gone(_, _) => key !in FieldsOf(file)
    case Told(_, _, cells, _) =>
      (key in FieldsOf(file) <==> key in cells) && (key in cells ==> FieldsOf(file)[key] == cells[key])
  }

  predicate SameCell(before: Option<File>, after: Option<File>, key: Str) {
    (key in FieldsOf(after) <==> key in FieldsOf(before))
    && (key in FieldsOf(after) ==> FieldsOf(after)[key] == FieldsOf(before)[key])
  }

  /** The file is as its last change says, or as it was; and so is every cell. */
  ghost predicate Settles(word: Speaker, before: Option<File>, after: Option<File>, bound: Place, client: Client) {
    && (Silent(Speaks(word), bound) ==> after == before)
    && (forall at: Place :: Last(Speaks(word), at, bound) ==> Obeys(after, word(at).value, client))
    && (client.hasRead && client.hasDelete ==> forall key: Str :: CellSettles(word, before, after, bound, key))
  }

  ghost predicate CellSettles(word: Speaker, before: Option<File>, after: Option<File>, bound: Place, key: Str) {
    && (Silent(Decides(word, key), bound) ==> SameCell(before, after, key))
    && (forall at: Place :: Last(Decides(word, key), at, bound) ==> CellIs(after, key, word(at).value))
  }

  /** The bounds have the same speaking places before them, but for one. */
  ghost predicate Next(speaks: Place -> bool, bound: Place, next: Place) {
    forall b: Place :: speaks(b) ==> (Precedes(b, next) <==> Precedes(b, bound) || b == bound)
  }

  ghost predicate Level(speaks: Place -> bool, bound: Place, next: Place) {
    forall b: Place :: speaks(b) ==> (Precedes(b, next) <==> Precedes(b, bound))
  }

  lemma LastNext(speaks: Place -> bool, at: Place, bound: Place, next: Place)
    requires Next(speaks, bound, next)
    ensures Last(speaks, at, next) <==> if speaks(bound) then at == bound else Last(speaks, at, bound)
  {}

  lemma SilentNext(speaks: Place -> bool, bound: Place, next: Place)
    requires Next(speaks, bound, next)
    ensures Silent(speaks, next) <==> !speaks(bound) && Silent(speaks, bound)
  {}

  lemma LastLevel(speaks: Place -> bool, at: Place, bound: Place, next: Place)
    requires Level(speaks, bound, next)
    ensures Last(speaks, at, next) <==> Last(speaks, at, bound)
    ensures Silent(speaks, next) <==> Silent(speaks, bound)
  {}

  lemma SettlesLevel(word: Speaker, before: Option<File>, after: Option<File>, bound: Place, next: Place,
                     client: Client)
    requires Level(Speaks(word), bound, next) && Settles(word, before, after, bound, client)
    ensures Settles(word, before, after, next, client)
  {
    forall at: Place
      ensures Last(Speaks(word), at, next) <==> Last(Speaks(word), at, bound)
      ensures Silent(Speaks(word), next) <==> Silent(Speaks(word), bound)
    {
      LastLevel(Speaks(word), at, bound, next);
    }
    forall key: Str | client.hasRead && client.hasDelete ensures CellSettles(word, before, after, next, key) {
      CellLevel(word, before, after, bound, next, key);
    }
  }

  lemma CellLevel(word: Speaker, before: Option<File>, after: Option<File>, bound: Place, next: Place, key: Str)
    requires Level(Speaks(word), bound, next) && CellSettles(word, before, after, bound, key)
    ensures CellSettles(word, before, after, next, key)
  {
    assert Level(Decides(word, key), bound, next);
    forall at: Place
      ensures Last(Decides(word, key), at, next) <==> Last(Decides(word, key), at, bound)
      ensures Silent(Decides(word, key), next) <==> Silent(Decides(word, key), bound)
    {
      LastLevel(Decides(word, key), at, bound, next);
    }
  }

  /** What one more change does to the file. */
  predicate Hears(file: Option<File>, after: Option<File>, word: Option<Word>, client: Client) {
    match word
    case None => after == file
    case Some(Gone(_, _)) => Obeys(after, word.value, client)
    case Some(Told(header, facts, cells, clears)) =>
      && Obeys(after, word.value, client)
      && (client.hasRead ==> FieldsOf(after) == (if clears then map[] else FieldsOf(file)) + cells)
  }

  lemma SettlesNext(word: Speaker, before: Option<File>, file: Option<File>, after: Option<File>, bound: Place,
                    next: Place, client: Client)
    requires Next(Speaks(word), bound, next) && Settles(word, before, file, bound, client)
    requires Hears(file, after, word(bound), client)
    ensures Settles(word, before, after, next, client)
  {
    SilentNext(Speaks(word), bound, next);
    forall at: Place | Last(Speaks(word), at, next) ensures Obeys(after, word(at).value, client) {
      LastNext(Speaks(word), at, bound, next);
    }
    forall key: Str | client.hasRead && client.hasDelete ensures CellSettles(word, before, after, next, key) {
      CellNext(word, before, file, after, bound, next, client, key);
    }
  }

  lemma CellNext(word: Speaker, before: Option<File>, file: Option<File>, after: Option<File>, bound: Place,
                 next: Place, client: Client, key: Str)
    requires Next(Speaks(word), bound, next) && CellSettles(word, before, file, bound, key)
    requires client.hasRead && client.hasDelete && Hears(file, after, word(bound), client)
    ensures CellSettles(word, before, after, next, key)
  {
    var decides := Decides(word, key);
    assert Next(decides, bound, next);
    SilentNext(decides, bound, next);
    assert !decides(bound) ==> SameCell(file, after, key);
    forall at: Place | Last(decides, at, next) ensures CellIs(after, key, word(at).value) {
      LastNext(decides, at, bound, next);
    }
  }

  // ---------------------------------------------------------------------------
  // Events do what the changes say
  // ---------------------------------------------------------------------------

  /** The event carries the word to the path. */
  predicate Carries(event: Event, path: Str, word: Option<Word>) {
    match word
    case None => !On(event, path)
    case Some(Gone(header, facts)) =>
      event.Delete? && event.path == path && event.header == header && Holds(event.payload, facts)
    case Some(Told(header, facts, cells, clears)) =>
      && event.Upsert? && event.path == path && event.header == header
      && (forall key :: key in facts ==> !IsRecordMap(key)) && Holds(event.payload, facts)
      && Entries(event.payload, FIELDS) == cells && Replaces(event.payload) == clears
  }

  lemma CarriedIsHeard(file: Option<File>, event: Event, path: Str, word: Option<Word>, client: Client)
    requires Carries(event, path, word)
    ensures Hears(file, Local(file, event, path, client), word, client)
  {
    if word.Some? && word.value.Told? {
      var stored, after := Existing(file, client), Local(file, event, path, client).value;
      MergeEntries(stored, event.payload, FIELDS);
      forall key | key in word.value.facts ensures Find(after.payload, key) == Some(word.value.facts[key]) {
        MergeAt(stored, event.payload, key);
      }
    }
  }

  lemma NamesIff(baseId: Str, tableId: Str, recordId: Str, context: Context, path: Str)
    ensures Names(baseId, tableId, recordId, context, path)
      <==> RecordPathFor(baseId, tableId, recordId, context) == Some(path)
  {
    TrimTwice(recordId);
    ReadsIff(baseId, context.configBaseId);
    ReadsIff(tableId, context.configTableId);
    var base := OrElse(ReadString(Some(baseId)), context.configBaseId);
    var table := OrElse(ReadString(Some(tableId)), context.configTableId);
    if base.Some? && table.Some? {
      assert AirtablePaths.PathOf(AirtablePaths.Record(base.value, table.value, recordId))
          == AirtablePaths.RecordPath(base.value, table.value, Trim(recordId));
    }
  }

  lemma ReadsIff(text: Str, fallback: Option<Str>)
    ensures forall read: Str :: Reads(text, fallback, read) <==> OrElse(ReadString(Some(text)), fallback) == Some(read)
  {}

  lemma FactKeys()
    ensures !IsRecordMap(U("baseId")) && !IsRecordMap(U("tableId")) && !IsRecordMap(U("id"))
    ensures U("baseId") != U("tableId") && U("baseId") != U("id") && U("tableId") != U("id")
    ensures WEBHOOK != U("baseId") && WEBHOOK != U("tableId") && WEBHOOK != U("id")
  {
    KeysApart();
    assert WEBHOOK[0] == 95 && CELLS[0] == 99 && U("baseId")[0] == 98 && U("tableId")[0] == 116 && U("id")[0] == 105;
  }

  lemma IdsHold(baseId: Str, tableId: Str, recordId: Str, key: Str, value: Value)
    requires key == FIELDS || key == WEBHOOK
    ensures Holds(Ids(baseId, tableId, recordId)[key := value], Facts(baseId, tableId, recordId))
    ensures forall fact :: fact in Facts(baseId, tableId, recordId) ==> !IsRecordMap(fact)
  {
    FactKeys();
  }

  lemma UpsertCarries(baseId: Str, tableId: Str, action: Str, happened: Str, entries: seq<(Str, Cells)>, i: nat,
                      context: Context, path: Str)
    requires i < |entries| && happened == U("record.") + action + [SLASH]
    ensures Carries(UpsertEvent(baseId, tableId, action, entries[i], context), path,
                    EntryWord(baseId, tableId, happened, entries, i, context, path))
  {
    NamesIff(baseId, tableId, entries[i].0, context, path);
    IdsHold(baseId, tableId, entries[i].0, FIELDS, Nested(entries[i].1));
  }

  lemma DeleteCarries(baseId: Str, tableId: Str, recordId: Str, context: Context, path: Str)
    ensures Carries(DeleteEvent(baseId, tableId, recordId, context), path,
                    if Names(baseId, tableId, recordId, context, path) then Some(GoneWord(baseId, tableId, recordId))
                    else None)
  {
    NamesIff(baseId, tableId, recordId, context, path);
    IdsHold(baseId, tableId, recordId, WEBHOOK, Nested(map[U("action") := U("delete")]));
  }

  // ---------------------------------------------------------------------------
  // One group of a table after another
  // ---------------------------------------------------------------------------

  lemma NextEntry(speaks: Place -> bool, at: Place)
    ensures Next(speaks, at, at.(entry := at.entry + 1))
  {}

  lemma {:induction false} LocalConcat(file: Option<File>, a: seq<Event>, b: seq<Event>, path: Str, client: Client)
    ensures LocalAll(file, a + b, path, client) == LocalAll(LocalAll(file, a, path, client), b, path, client)
  {
    if b == [] {
      assert a + b == a;
    } else {
      assert (a + b)[..|a + b| - 1] == a + b[..|b| - 1];
      LocalConcat(file, a, b[..|b| - 1], path, client);
    }
  }

  lemma {:induction false} EntriesSettle(word: Speaker, before: Option<File>, file: Option<File>, events: seq<Event>,
                                         at: Place, path: Str, client: Client)
    requires Settles(word, before, file, at.(entry := 0), client)
    requires forall i :: 0 <= i < |events| ==> Carries(events[i], path, word(at.(entry := i)))
    ensures Settles(word, before, LocalAll(file, events, path, client), at.(entry := |events|), client)
  {
    if events == [] {
    } else {
      var front, last := events[..|events| - 1], events[|events| - 1];
      var bound := at.(entry := |front|);
      EntriesSettle(word, before, file, front, at, path, client);
      NextEntry(Speaks(word), bound);
      var mid := LocalAll(file, front, path, client);
      CarriedIsHeard(mid, last, path, word(bound), client);
      SettlesNext(word, before, mid, Local(mid, last, path, client), bound, at.(entry := |events|), client);
    }
  }

  lemma LastDestroyed(word: Speaker, before: Option<File>, file: Option<File>, baseId: Str, tableId: Str,
                      ids: seq<Option<Str>>, at: Place, context: Context, path: Str, client: Client)
    requires ids != [] && at.entry == |ids| - 1
    requires
      var front := DeleteEvents(baseId, tableId, ids[..|ids| - 1], context);
      Settles(word, before, LocalAll(file, front, path, client), at, client)
    requires word(at) == DestroyedWord(baseId, tableId, ids, |ids| - 1, context, path)
    ensures Settles(word, before, LocalAll(file, DeleteEvents(baseId, tableId, ids, context), path, client),
                    at.(entry := |ids|), client)
  {
    var mid := LocalAll(file, DeleteEvents(baseId, tableId, ids[..|ids| - 1], context), path, client);
    var after := LocalAll(file, DeleteEvents(baseId, tableId, ids, context), path, client);
    NextEntry(Speaks(word), at);
    OneMoreDestroyed(file, baseId, tableId, ids, context, path, client);
    SettlesNext(word, before, mid, after, at, at.(entry := |ids|), client);
  }

  lemma {:induction false} DestroyedSettle(word: Speaker, before: Option<File>, file: Option<File>, baseId: Str,
                                           tableId: Str, ids: seq<Option<Str>>, at: Place, context: Context,
                                           path: Str, client: Client)
    requires Settles(word, before, file, at.(entry := 0), client)
    requires forall i: nat :: i < |ids| ==>
      word(at.(entry := i)) == DestroyedWord(baseId, tableId, ids, i, context, path)
    ensures Settles(word, before, LocalAll(file, DeleteEvents(baseId, tableId, ids, context), path, client),
                    at.(entry := |ids|), client)
  {
    if ids == [] {
    } else {
      var front := ids[..|ids| - 1];
      forall i: nat | i < |front|
        ensures word(at.(entry := i)) == DestroyedWord(baseId, tableId, front, i, context, path)
      {
        SameDestroyed(baseId, tableId, ids, i, context, path);
      }
      DestroyedSettle(word, before, file, baseId, tableId, front, at, context, path, client);
      LastDestroyed(word, before, file, baseId, tableId, ids, at.(entry := |front|), context, path, client);
    }
  }

  lemma SameDestroyed(baseId: Str, tableId: Str, ids: seq<Option<Str>>, i: nat, context: Context, path: Str)
    requires i < |ids| - 1
    ensures DestroyedWord(baseId, tableId, ids[..|ids| - 1], i, context, path)
      == DestroyedWord(baseId, tableId, ids, i, context, path)
  {
    assert ids[..|ids| - 1][i] == ids[i];
  }

  lemma OneMoreDestroyed(file: Option<File>, baseId: Str, tableId: Str, ids: seq<Option<Str>>, context: Context,
                         path: Str, client: Client)
    requires ids != []
    ensures
      var mid := LocalAll(file, DeleteEvents(baseId, tableId, ids[..|ids| - 1], context), path, client);
      var after := LocalAll(file, DeleteEvents(baseId, tableId, ids, context), path, client);
      Hears(mid, after, DestroyedWord(baseId, tableId, ids, |ids| - 1, context, path), client)
  {
    var front, last := DeleteEvents(baseId, tableId, ids[..|ids| - 1], context), ReadString(ids[|ids| - 1]);
    var mid := LocalAll(file, front, path, client);
    if last.Some? {
      var event := DeleteEvent(baseId, tableId, last.value, context);
      assert (front + [event])[..|front|] == front;
      DeleteCarries(baseId, tableId, last.value, context, path);
      CarriedIsHeard(mid, event, path, DestroyedWord(baseId, tableId, ids, |ids| - 1, context, path), client);
    } else {
      assert front + [] == front;
    }
  }

  /** The table at a position says what its change says. */
  ghost predicate TableSpeaks(word: Speaker, d: nat, t: nat, baseId: Str, table: (Str, Option<TableChange>),
                              context: Context, path: Str)
  {
    forall group: Group, i: nat ::
      word(Place(d, t, group, i))
      == if table.1.None? then None else TableWord(baseId, table.0, table.1.value, group, i, context, path)
  }

  lemma GroupEnds(word: Speaker, d: nat, t: nat, baseId: Str, table: (Str, Option<TableChange>), context: Context,
                  path: Str)
    requires TableSpeaks(word, d, t, baseId, table, context, path) && table.1.Some?
    ensures
      var change, speaks := table.1.value, Speaks(word);
      && Level(speaks, Place(d, t, Created, |change.created|), Place(d, t, Changed, 0))
      && Level(speaks, Place(d, t, Changed, |change.changed|), Place(d, t, Destroyed, 0))
      && Level(speaks, Place(d, t, Destroyed, |change.destroyed|), Place(d, t + 1, Created, 0))
  {
    forall b: Place | b.descriptor == d && b.table == t
      ensures word(b) == TableWord(baseId, table.0, table.1.value, b.group, b.entry, context, path)
    {
      assert b == Place(d, t, b.group, b.entry);
    }
  }

  lemma EmptyTable(word: Speaker, d: nat, t: nat, baseId: Str, table: (Str, Option<TableChange>), context: Context,
                   path: Str)
    requires TableSpeaks(word, d, t, baseId, table, context, path) && table.1.None?
    ensures Level(Speaks(word), Place(d, t, Created, 0), Place(d, t + 1, Created, 0))
  {
    forall b: Place | b.descriptor == d && b.table == t ensures word(b).None? {
      assert b == Place(d, t, b.group, b.entry);
    }
  }

  lemma UpsertsSettle(word: Speaker, before: Option<File>, file: Option<File>, baseId: Str, tableId: Str, action: Str,
                      happened: Str, entries: seq<(Str, Cells)>, at: Place, context: Context, path: Str,
                      client: Client)
    requires Settles(word, before, file, at.(entry := 0), client) && happened == U("record.") + action + [SLASH]
    requires forall i: nat :: word(at.(entry := i)) == EntryWord(baseId, tableId, happened, entries, i, context, path)
    ensures Settles(word, before, LocalAll(file, UpsertEvents(baseId, tableId, action, entries, context), path, client),
                    at.(entry := |entries|), client)
  {
    var events := UpsertEvents(baseId, tableId, action, entries, context);
    forall i | 0 <= i < |events| ensures Carries(events[i], path, word(at.(entry := i))) {
      UpsertCarries(baseId, tableId, action, happened, entries, i, context, path);
    }
    EntriesSettle(word, before, file, events, at, path, client);
  }

  lemma HappenedTexts()
    ensures U("record.create/") == U("record.") + U("create") + [SLASH]
    ensures U("record.update/") == U("record.") + U("update") + [SLASH]
  {}

  lemma TableSettles(word: Speaker, before: Option<File>, file: Option<File>, d: nat, t: nat, baseId: Str,
                     table: (Str, Option<TableChange>), context: Context, path: Str, client: Client)
    requires TableSpeaks(word, d, t, baseId, table, context, path)
    requires Settles(word, before, file, Place(d, t, Created, 0), client)
    ensures Settles(word, before, LocalAll(file, TableEvents(baseId, table, context), path, client),
                    Place(d, t + 1, Created, 0), client)
  {
    if table.1.None? {
      EmptyTable(word, d, t, baseId, table, context, path);
      SettlesLevel(word, before, file, Place(d, t, Created, 0), Place(d, t + 1, Created, 0), client);
    } else {
      var change := table.1.value;
      HappenedTexts();
      GroupEnds(word, d, t, baseId, table, context, path);
      var made := UpsertEvents(baseId, table.0, U("create"), change.created, context);
      var edited := UpsertEvents(baseId, table.0, U("update"), change.changed, context);
      var gone := DeleteEvents(baseId, table.0, change.destroyed, context);
      UpsertsSettle(word, before, file, baseId, table.0, U("create"), U("record.create/"), change.created,
                    Place(d, t, Created, 0), context, path, client);
      var one := LocalAll(file, made, path, client);
      SettlesLevel(word, before, one, Place(d, t, Created, |change.created|), Place(d, t, Changed, 0), client);
      UpsertsSettle(word, before, one, baseId, table.0, U("update"), U("record.update/"), change.changed,
                    Place(d, t, Changed, 0), context, path, client);
      var two := LocalAll(one, edited, path, client);
      SettlesLevel(word, before, two, Place(d, t, Changed, |change.changed|), Place(d, t, Destroyed, 0), client);
      DestroyedSettle(word, before, two, baseId, table.0, change.destroyed, Place(d, t, Destroyed, 0), context, path,
                      client);
      var three := LocalAll(two, gone, path, client);
      SettlesLevel(word, before, three, Place(d, t, Destroyed, |change.destroyed|), Place(d, t + 1, Created, 0),
                   client);
      LocalConcat(file, made, edited, path, client);
      LocalConcat(file, made + edited, gone, path, client);
    }
  }

  /** The descriptor at a position says what its tables say. */
  ghost predicate TablesSpeak(word: Speaker, d: nat, baseId: Str, tables: seq<(Str, Option<TableChange>)>,
                              context: Context, path: Str)
  {
    forall t: nat :: t < |tables| ==> TableSpeaks(word, d, t, baseId, tables[t], context, path)
  }

  lemma {:induction false} TablesSettle(word: Speaker, before: Option<File>, file: Option<File>, d: nat, baseId: Str,
                                        tables: seq<(Str, Option<TableChange>)>, context: Context, path: Str,
                                        client: Client)
    requires TablesSpeak(word, d, baseId, tables, context, path)
    requires Settles(word, before, file, Place(d, 0, Created, 0), client)
    ensures Settles(word, before, LocalAll(file, TablesEvents(baseId, tables, context), path, client),
                    Place(d, |tables|, Created, 0), client)
  {
    if tables == [] {
    } else {
      var front, last := tables[..|tables| - 1], tables[|tables| - 1];
      assert TablesSpeak(word, d, baseId, front, context, path) by {
        forall t: nat | t < |front| ensures TableSpeaks(word, d, t, baseId, front[t], context, path) {
          assert front[t] == tables[t];
        }
      }
      TablesSettle(word, before, file, d, baseId, front, context, path, client);
      var events := TablesEvents(baseId, front, context);
      TableSettles(word, before, LocalAll(file, events, path, client), d, |front|, baseId, last, context, path, client);
      LocalConcat(file, events, TableEvents(baseId, last, context), path, client);
    }
  }

  ghost function SpeakerOf(descriptors: seq<Descriptor>, context: Context, path: Str): Speaker {
    at => WordAt(descriptors, context, path, at)
  }

  lemma LocalOne(file: Option<File>, event: Event, path: Str, client: Client)
    ensures LocalAll(file, [event], path, client) == Local(file, event, path, client)
  {
    assert [event][..0] == [];
  }

  lemma ExpandNext(descriptors: seq<Descriptor>, d: nat, context: Context)
    requires d < |descriptors|
    ensures ExpandAll(descriptors[..d + 1], context)
      == ExpandAll(descriptors[..d], context) + Expand(descriptors[d], context)
  {
    assert descriptors[..d + 1][..d] == descriptors[..d];
  }

  lemma ShapedSettles(word: Speaker, before: Option<File>, file: Option<File>, d: nat, event: Event, path: Str,
                      client: Client)
    requires forall at: Place :: at.descriptor == d ==>
      word(at) == if at == Place(d, 0, Created, 0) then ShapedWord(event, path) else None
    requires Settles(word, before, file, Place(d, 0, Created, 0), client)
    ensures Settles(word, before, LocalAll(file, [event], path, client), Place(d + 1, 0, Created, 0), client)
  {
    var bound, next := Place(d, 0, Created, 0), Place(d, 0, Created, 1);
    LocalOne(file, event, path, client);
    NextEntry(Speaks(word), bound);
    CarriedIsHeard(file, event, path, word(bound), client);
    SettlesNext(word, before, file, LocalAll(file, [event], path, client), bound, next, client);
    SettlesLevel(word, before, LocalAll(file, [event], path, client), next, Place(d + 1, 0, Created, 0), client);
  }

  lemma ChangesSettle(word: Speaker, before: Option<File>, file: Option<File>, d: nat, baseId: Str,
                      tables: seq<(Str, Option<TableChange>)>, context: Context, path: Str, client: Client)
    requires TablesSpeak(word, d, baseId, tables, context, path)
    requires forall at: Place :: at.descriptor == d && at.table >= |tables| ==> word(at).None?
    requires Settles(word, before, file, Place(d, 0, Created, 0), client)
    ensures Settles(word, before, LocalAll(file, TablesEvents(baseId, tables, context), path, client),
                    Place(d + 1, 0, Created, 0), client)
  {
    TablesSettle(word, before, file, d, baseId, tables, context, path, client);
    SettlesLevel(word, before, LocalAll(file, TablesEvents(baseId, tables, context), path, client),
                 Place(d, |tables|, Created, 0), Place(d + 1, 0, Created, 0), client);
  }

  lemma {:induction false} DescriptorsSettle(descriptors: seq<Descriptor>, upTo: nat, context: Context, path: Str,
                                             file: Option<File>, client: Client)
    requires upTo <= |descriptors|
    ensures Settles(SpeakerOf(descriptors, context, path), file,
                    LocalAll(file, ExpandAll(descriptors[..upTo], context), path, client),
                    Place(upTo, 0, Created, 0), client)
  {
    var word := SpeakerOf(descriptors, context, path);
    if upTo == 0 {
    } else {
      var d := upTo - 1;
      DescriptorsSettle(descriptors, d, context, path, file, client);
      ExpandNext(descriptors, d, context);
      var events, more := ExpandAll(descriptors[..d], context), Expand(descriptors[d], context);
      LocalConcat(file, events, more, path, client);
      OneDescriptorSettles(descriptors, d, context, path, file, LocalAll(file, events, path, client), client);
    }
  }

  lemma OneDescriptorSettles(descriptors: seq<Descriptor>, d: nat, context: Context, path: Str, before: Option<File>,
                             file: Option<File>, client: Client)
    requires d < |descriptors|
    requires Settles(SpeakerOf(descriptors, context, path), before, file, Place(d, 0, Created, 0), client)
    ensures Settles(SpeakerOf(descriptors, context, path), before,
                    LocalAll(file, Expand(descriptors[d], context), path, client), Place(d + 1, 0, Created, 0), client)
  {
    var word := SpeakerOf(descriptors, context, path);
    match descriptors[d]
    case Shaped(event) =>
      ShapedSettles(word, before, file, d, event, path, client);
    case Changes(raw, tables) =>
      var baseId := match ReadString(raw) case Some(id) => id case None => context.baseId;
      forall t: nat | t < |tables| ensures TableSpeaks(word, d, t, baseId, tables[t], context, path) {}
      ChangesSettle(word, before, file, d, baseId, tables, context, path, client);
  }

  /**
   * Without failing calls, what the last change about a record says is what its file is: gone if it was
   * destroyed, else there with its ids and cells. A file that no change names is as it was. And each cell
   * is as the last change that brings it, or removes the record, leaves it.
   */
  lemma DescriptorsSay(files: Files, descriptors: seq<Descriptor>, context: Context, client: Client, path: Str)
    ensures Settles(SpeakerOf(descriptors, context, path), FileAt(files, path),
                    FileAt(IngestAll(files, ExpandAll(descriptors, context), client), path),
                    Place(|descriptors|, 0, Created, 0), client)
  {
    assert descriptors[..|descriptors|] == descriptors;
    DescriptorsSettle(descriptors, |descriptors|, context, path, FileAt(files, path), client);
    EachFileOnItsOwn(files, ExpandAll(descriptors, context), path, client);
  }

  // ---------------------------------------------------------------------------
  // Which path a failed change is listed under
  // ---------------------------------------------------------------------------

  const NO_CONTEXT: Context := Context([], None, None)

  /** The record's own path, without the configuration's ids, and a fixed one when there is none. */
  ghost predicate ListedAs(listed: Str, baseId: Str, tableId: Str, recordId: Str) {
    if exists path :: Names(baseId, tableId, recordId, NO_CONTEXT, path) then
      Names(baseId, tableId, recordId, NO_CONTEXT, listed)
    else listed == U("/airtable/unmapped-webhook.json")
  }

  lemma FallbackListed(baseId: Str, tableId: Str, recordId: Str)
    ensures ListedAs(FallbackPath(baseId, tableId, recordId), baseId, tableId, recordId)
  {
    forall path
      ensures Names(baseId, tableId, recordId, NO_CONTEXT, path)
        <==> RecordPathFor(baseId, tableId, recordId, NO_CONTEXT) == Some(path)
    {
      NamesIff(baseId, tableId, recordId, NO_CONTEXT, path);
    }
  }

  /** A change whose call fails is listed under its record's own path; one without a path, under the fixed one. */
  lemma FailuresListed(baseId: Str, tableId: Str, action: Str, entry: (Str, Cells), recordId: Str, context: Context)
    ensures
      var event := UpsertEvent(baseId, tableId, action, entry, context);
      if event.Broken? then event.fallback == U("/airtable/unmapped-webhook.json")
      else ListedAs(event.fallback, baseId, tableId, entry.0)
    ensures
      var event := DeleteEvent(baseId, tableId, recordId, context);
      if event.Broken? then event.fallback == U("/airtable/unmapped-webhook.json")
      else ListedAs(event.fallback, baseId, tableId, recordId)
  {
    FallbackListed(baseId, tableId, entry.0);
    FallbackListed(baseId, tableId, recordId);
  }

  // ---------------------------------------------------------------------------
  // What a delivery reports
  // ---------------------------------------------------------------------------

  /** The call for the event is not made or not answered. */
  predicate Fails(try: (Event, Luck)) { try.1 == CallFails || try.0.Broken? }

  /** What a try puts down: the path of its event, or the path to report in its place. */
  predicate PutsDown(try: (Event, Luck), path: Str) {
    if Fails(try) then path == try.0.fallback && path != [] else path == try.0.path
  }

  ghost function Count(tries: Delivery, which: ((Event, Luck)) -> bool): nat {
    if tries == [] then 0
    else Count(tries[..|tries| - 1], which) + if which(tries[|tries| - 1]) then 1 else 0
  }

  predicate Writes(try: (Event, Luck), client: Client) {
    !Fails(try) && (try.0.Delete? ==> !client.hasDelete)
  }

  predicate Deletes(try: (Event, Luck)) { !Fails(try) && try.0.Delete? }

  /**
   * A delivery reports one write for each event written, one deletion for each event deleted, written or not, one
   * error for each that failed, and the path of every event that has one to report.
   */
  lemma {:induction false} DeliveryReports(tries: Delivery, client: Client)
    ensures
      var result := ReportAllTries(Result(0, 0, [], []), tries, client);
      && result.writes == Count(tries, try => Writes(try, client))
      && result.deletes == Count(tries, try => Deletes(try))
      && |result.errors| == Count(tries, try => Fails(try))
      && (forall path :: path in result.paths <==> exists i :: 0 <= i < |tries| && PutsDown(tries[i], path))
      && (forall path :: path in result.errors <==>
           exists i :: 0 <= i < |tries| && Fails(tries[i]) && tries[i].0.fallback == path)
  {
    if tries == [] {
    } else {
      var front, last := tries[..|tries| - 1], tries[|tries| - 1];
      DeliveryReports(front, client);
    }
  }
}
