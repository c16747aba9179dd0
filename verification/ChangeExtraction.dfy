/**
 * The bounded list of changes read from an Airtable notification
 * (packages/airtable/src/webhook-normalizer.ts:476-544, 874-961). The extractors stop as soon as
 * the limit is reached, one of them only after adding at least one change more, and the list is
 * cut at the end. Objects are their entries in enumeration order; a value of the wrong type is None.
 */
module ChangeExtraction {
  import opened Wrappers
  import opened JsStrings

  datatype Change = Change(fieldId: Option<Str>, recordId: Option<Str>, tableId: Option<Str>, kind: Option<Str>)

  /** A notification's own change entry, both spellings of each field. */
  datatype Explicit = Explicit(tableId: Option<Str>, tableIdSnake: Option<Str>, recordId: Option<Str>,
                               recordIdSnake: Option<Str>,
                               kind: Option<Str>, fieldId: Option<Str>, fieldIdSnake: Option<Str>,
                               changed: seq<Option<Str>>, changedSnake: seq<Option<Str>>)

  /** A changed record: the keys of its current and previous cell values. */
  datatype Record = Record(recordId: Str, kind: Option<Str>, current: seq<Str>, previous: seq<Str>)

  datatype Table = Table(records: seq<Record>, created: seq<Option<Str>>, destroyed: seq<Option<Str>>)

  datatype Notification = Notification(changes: seq<Option<Explicit>>, tables: seq<(Str, Option<Table>)>)

  // ---------------------------------------------------------------------------
  // Every change, without a limit
  // ---------------------------------------------------------------------------

  /** One change for each field, or one without a field. */
  function PerField(fields: seq<Str>, base: Change): seq<Change> {
    if fields == [] then [base] else seq(|fields|, i requires 0 <= i < |fields| => base.(fieldId := Some(fields[i])))
  }

  function Strings(items: seq<Str>): seq<Option<Str>> { seq(|items|, i requires 0 <= i < |items| => Some(items[i])) }

  function ExplicitFields(entry: Explicit): seq<Option<Str>> {
    [OrElse(ReadString(entry.fieldId), ReadString(entry.fieldIdSnake))] + entry.changed + entry.changedSnake
  }

  function ExplicitBase(entry: Explicit): Change {
    Change(None, OrElse(ReadString(entry.recordId), ReadString(entry.recordIdSnake)),
           OrElse(ReadString(entry.tableId), ReadString(entry.tableIdSnake)), ReadString(entry.kind))
  }

  function OfEntry(entry: Option<Explicit>): seq<Change> {
    if entry.None? then [] else PerField(DistinctStrings(ExplicitFields(entry.value)), ExplicitBase(entry.value))
  }

  function OfEntries(entries: seq<Option<Explicit>>): seq<Change> {
    if entries == [] then [] else OfEntries(entries[..|entries| - 1]) + OfEntry(entries[|entries| - 1])
  }

  function RecordFields(record: Record): seq<Option<Str>> { Strings(record.current) + Strings(record.previous) }

  function RecordBase(record: Record, tableId: Str): Change {
    Change(None, Some(record.recordId), Some(tableId), OrElse(ReadString(record.kind), Some(U("update"))))
  }

  function OfRecord(record: Record, tableId: Str): seq<Change> {
    PerField(DistinctStrings(RecordFields(record)), RecordBase(record, tableId))
  }

  function OfRecords(records: seq<Record>, tableId: Str): seq<Change> {
    if records == [] then []
    else OfRecords(records[..|records| - 1], tableId) + OfRecord(records[|records| - 1], tableId)
  }

  /** A created or deleted field of a table. */
  function OfField(value: Option<Str>, tableId: Str, kind: Str): seq<Change> {
    if ReadString(value).None? then [] else [Change(ReadString(value), None, Some(tableId), Some(kind))]
  }

  function OfFields(values: seq<Option<Str>>, tableId: Str, kind: Str): seq<Change> {
    if values == [] then []
    else OfFields(values[..|values| - 1], tableId, kind) + OfField(values[|values| - 1], tableId, kind)
  }

  const CREATED: Str := U("field.create")
  const DESTROYED: Str := U("field.delete")

  function OfTable(table: Option<Table>, tableId: Str): seq<Change> {
    if table.None? then []
    else
      OfRecords(table.value.records, tableId) + OfFields(table.value.created, tableId, CREATED)
      + OfFields(table.value.destroyed, tableId, DESTROYED)
  }

  function OfTables(tables: seq<(Str, Option<Table>)>): seq<Change> {
    if tables == [] then []
    else
      var last := tables[|tables| - 1];
      OfTables(tables[..|tables| - 1]) + OfTable(last.1, last.0)
  }

  /** All the changes of a notification: its own list when that has any, or those of its tables. */
  function Enumerate(n: Notification): seq<Change> {
    if OfEntries(n.changes) != [] then OfEntries(n.changes) else OfTables(n.tables)
  }

  // ---------------------------------------------------------------------------
  // Which changes these are
  // ---------------------------------------------------------------------------

  /** One of the readable fields, or none when there is no readable one. */
  predicate IsField(field: Option<Str>, fields: seq<Option<Str>>) {
    if field.Some? then exists i :: 0 <= i < |fields| && ReadString(fields[i]) == field
    else forall i :: 0 <= i < |fields| ==> ReadString(fields[i]).None?
  }

  /** A change that a notification lists itself, each part under either of its two spellings. */
  predicate Listed(change: Change, entry: Explicit) {
    && IsField(change.fieldId, [if ReadString(entry.fieldId).Some? then entry.fieldId else entry.fieldIdSnake]
                               + entry.changed + entry.changedSnake)
    && change.recordId
       == (if ReadString(entry.recordId).Some? then ReadString(entry.recordId) else ReadString(entry.recordIdSnake))
    && change.tableId
       == (if ReadString(entry.tableId).Some? then ReadString(entry.tableId) else ReadString(entry.tableIdSnake))
    && change.kind == ReadString(entry.kind)
  }

  /** A field of a changed record, current or previous, or the record alone when it has none. */
  predicate OfItsRecord(change: Change, record: Record, tableId: Str) {
    && IsField(change.fieldId, Strings(record.current + record.previous))
    && change.recordId == Some(record.recordId) && change.tableId == Some(tableId)
    && change.kind == (if ReadString(record.kind).Some? then ReadString(record.kind) else Some(U("update")))
  }

  /** A field that a table created or destroyed. */
  predicate OfItsFields(change: Change, fields: seq<Option<Str>>, tableId: Str, kind: Str) {
    change.fieldId.Some? && IsField(change.fieldId, fields)
    && change.recordId.None? && change.tableId == Some(tableId) && change.kind == Some(kind)
  }

  predicate OfItsTable(change: Change, table: Table, tableId: Str) {
    || (exists r :: r in table.records && OfItsRecord(change, r, tableId))
    || OfItsFields(change, table.created, tableId, U("field.create"))
    || OfItsFields(change, table.destroyed, tableId, U("field.delete"))
  }

  lemma {:induction false} NoneDistinct(items: seq<Option<Str>>)
    ensures DistinctStrings(items) == [] <==> IsField(None, items)
  {
    if items == [] {
    } else {
      var front := items[..|items| - 1];
      NoneDistinct(front);
      assert forall i :: 0 <= i < |front| ==> front[i] == items[i];
    }
  }

  lemma InPerField(change: Change, fields: seq<Option<Str>>, base: Change)
    requires base.fieldId.None?
    ensures change in PerField(DistinctStrings(fields), base)
      <==> IsField(change.fieldId, fields) && change == base.(fieldId := change.fieldId)
  {
    var names := DistinctStrings(fields);
    NoneDistinct(fields);
    if change.fieldId.Some? { DistinctMembers(fields, change.fieldId.value); }
    if names == [] && change.fieldId.Some? { assert !IsField(change.fieldId, fields); }
    if i :| 0 <= i < |names| && names != [] && change == base.(fieldId := Some(names[i])) {
      assert PerField(names, base)[i] == change && names[i] in names;
    }
  }

  lemma InEntry(change: Change, entry: Explicit)
    ensures change in OfEntry(Some(entry)) <==> Listed(change, entry)
  {
    InPerField(change, ExplicitFields(entry), ExplicitBase(entry));
    var first := if ReadString(entry.fieldId).Some? then entry.fieldId else entry.fieldIdSnake;
    var read := OrElse(ReadString(entry.fieldId), ReadString(entry.fieldIdSnake));
    assert read == ReadString(first);
    ReadTwice(first);
    SameFields(change.fieldId, [read] + entry.changed + entry.changedSnake,
               [first] + entry.changed + entry.changedSnake);
  }

  lemma ReadTwice(value: Option<Str>)
    ensures ReadString(ReadString(value)) == ReadString(value)
  {
    if value.Some? { TrimTwice(value.value); }
  }

  lemma SameFields(field: Option<Str>, a: seq<Option<Str>>, b: seq<Option<Str>>)
    requires |a| == |b| && forall i :: 0 <= i < |a| ==> ReadString(a[i]) == ReadString(b[i])
    ensures IsField(field, a) <==> IsField(field, b)
  {
    if field.Some? && IsField(field, a) {
      var i :| 0 <= i < |a| && ReadString(a[i]) == field;
      assert ReadString(b[i]) == field;
    }
    if field.Some? && IsField(field, b) {
      var i :| 0 <= i < |b| && ReadString(b[i]) == field;
      assert ReadString(a[i]) == field;
    }
  }

  predicate AnyListed(change: Change, entries: seq<Option<Explicit>>) {
    exists i :: 0 <= i < |entries| && entries[i].Some? && Listed(change, entries[i].value)
  }

  lemma AnyListedSnoc(change: Change, front: seq<Option<Explicit>>, last: Option<Explicit>)
    ensures AnyListed(change, front + [last])
      <==> AnyListed(change, front) || (last.Some? && Listed(change, last.value))
  {
    var entries := front + [last];
    assert forall i :: 0 <= i < |front| ==> front[i] == entries[i];
    assert entries[|front|] == last;
  }

  lemma {:induction false} InEntries(change: Change, entries: seq<Option<Explicit>>)
    ensures change in OfEntries(entries) <==> AnyListed(change, entries)
  {
    if entries == [] {
    } else {
      var front, last := entries[..|entries| - 1], entries[|entries| - 1];
      InEntries(change, front);
      AnyListedSnoc(change, front, last);
      assert entries == front + [last];
      if last.Some? { InEntry(change, last.value); }
    }
  }

  lemma InRecord(change: Change, record: Record, tableId: Str)
    ensures change in OfRecord(record, tableId) <==> OfItsRecord(change, record, tableId)
  {
    InPerField(change, RecordFields(record), RecordBase(record, tableId));
    assert RecordFields(record) == Strings(record.current + record.previous);
  }

  lemma {:induction false} InRecords(change: Change, records: seq<Record>, tableId: Str)
    ensures change in OfRecords(records, tableId) <==> exists r :: r in records && OfItsRecord(change, r, tableId)
  {
    if records == [] {
    } else {
      var front, last := records[..|records| - 1], records[|records| - 1];
      assert records == front + [last];
      InRecords(change, front, tableId);
      InRecord(change, last, tableId);
    }
  }

  lemma {:induction false} InFields(change: Change, values: seq<Option<Str>>, tableId: Str, kind: Str)
    ensures change in OfFields(values, tableId, kind) <==> OfItsFields(change, values, tableId, kind)
  {
    if values == [] {
    } else {
      var front, last := values[..|values| - 1], values[|values| - 1];
      InFields(change, front, tableId, kind);
      assert values == front + [last];
      if change.fieldId.Some? { IsFieldSnoc(change.fieldId, front, last); }
    }
  }

  lemma IsFieldSnoc(field: Option<Str>, front: seq<Option<Str>>, last: Option<Str>)
    requires field.Some?
    ensures IsField(field, front + [last]) <==> IsField(field, front) || ReadString(last) == field
  {
    var fields := front + [last];
    assert forall i :: 0 <= i < |front| ==> front[i] == fields[i];
    assert fields[|front|] == last;
  }

  lemma InTable(change: Change, table: Table, tableId: Str)
    ensures change in OfTable(Some(table), tableId) <==> OfItsTable(change, table, tableId)
  {
    InRecords(change, table.records, tableId);
    InFields(change, table.created, tableId, CREATED);
    InFields(change, table.destroyed, tableId, DESTROYED);
  }

  lemma {:induction false} InTables(change: Change, tables: seq<(Str, Option<Table>)>)
    ensures change in OfTables(tables)
      <==> exists i :: 0 <= i < |tables| && tables[i].1.Some? && OfItsTable(change, tables[i].1.value, tables[i].0)
  {
    if tables == [] {
    } else {
      var front, last := tables[..|tables| - 1], tables[|tables| - 1];
      InTables(change, front);
      assert forall i :: 0 <= i < |front| ==> front[i] == tables[i];
      if last.1.Some? {
        InTable(change, last.1.value, last.0);
        if OfItsTable(change, last.1.value, last.0) { assert tables[|tables| - 1].1.Some?; }
      }
    }
  }

  /** The notification lists changes itself. */
  predicate ListsChanges(n: Notification) { exists i :: 0 <= i < |n.changes| && n.changes[i].Some? }

  /**
   * The changes of a notification are those it lists itself, one for each readable field, or, when it lists
   * none, those of its tables' changed records and created and destroyed fields.
   */
  lemma EnumerationIs(n: Notification, change: Change)
    ensures change in Enumerate(n) <==>
      if ListsChanges(n) then exists i ::
        0 <= i < |n.changes| && n.changes[i].Some? && Listed(change, n.changes[i].value)
      else exists i ::
        0 <= i < |n.tables| && n.tables[i].1.Some? && OfItsTable(change, n.tables[i].1.value, n.tables[i].0)
  {
    InEntries(change, n.changes);
    InTables(change, n.tables);
    SomeEntries(n.changes);
  }

  lemma {:induction false} SomeEntries(entries: seq<Option<Explicit>>)
    ensures OfEntries(entries) != [] <==> exists i :: 0 <= i < |entries| && entries[i].Some?
  {
    if entries == [] {
    } else {
      var front, last := entries[..|entries| - 1], entries[|entries| - 1];
      SomeEntries(front);
      assert forall i :: 0 <= i < |front| ==> front[i] == entries[i];
      if last.Some? { assert entries[|entries| - 1].Some?; }
    }
  }

  // ---------------------------------------------------------------------------
  // Filling a list up to a limit
  // ---------------------------------------------------------------------------

  function Take(changes: seq<Change>, n: nat): seq<Change> {
    if |changes| <= n then changes else changes[..n]
  }

  /** How many changes a helper that stops at the limit may still add, when it adds `least` regardless. */
  function Room(changes: seq<Change>, limit: nat, least: nat): nat {
    if |changes| + least >= limit then least else limit - |changes|
  }

  function Fill(changes: seq<Change>, more: seq<Change>, limit: nat, least: nat): seq<Change> {
    changes + Take(more, Room(changes, limit, least))
  }

  /** The list has every change so far, or already the first `limit` of them. */
  predicate UpTo(changes: seq<Change>, all: seq<Change>, limit: nat) {
    changes == all || (limit <= |changes| && limit <= |all| && changes[..limit] == all[..limit])
  }

  lemma FillKeepsUpTo(changes: seq<Change>, all: seq<Change>, more: seq<Change>, limit: nat, least: nat)
    requires UpTo(changes, all, limit)
    ensures UpTo(Fill(changes, more, limit, least), all + more, limit)
  {
    var filled := Fill(changes, more, limit, least);
    if changes == all && |more| > Room(changes, limit, least) {
      assert filled[..limit] == (all + more)[..limit];
    } else if changes != all {
      assert filled[..limit] == changes[..limit] && (all + more)[..limit] == all[..limit];
    }
  }

  lemma FullKeepsUpTo(changes: seq<Change>, all: seq<Change>, more: seq<Change>, limit: nat)
    requires UpTo(changes, all, limit) && limit <= |changes|
    ensures UpTo(changes, all + more, limit)
  {
    assert (all + more)[..limit] == all[..limit];
  }

  lemma UpToIsTake(changes: seq<Change>, all: seq<Change>, limit: nat)
    requires UpTo(changes, all, limit)
    ensures Take(changes, limit) == Take(all, limit)
  {
    if changes != all {
      assert changes[..limit] == Take(changes, limit) && all[..limit] == Take(all, limit);
    }
  }

  /** Filling in two steps, while there is room, is filling at once. */
  lemma FillTwice(changes: seq<Change>, first: seq<Change>, second: seq<Change>, limit: nat)
    requires |Fill(changes, first, limit, 0)| < limit
    ensures Fill(Fill(changes, first, limit, 0), second, limit, 1) == Fill(changes, first + second, limit, 0)
  {
    var room := Room(changes, limit, 0);
    assert |first| < room;
    assert Take(first + second, room) == first + Take(second, room - |first|);
  }

  lemma FillFull(changes: seq<Change>, first: seq<Change>, second: seq<Change>, limit: nat)
    requires limit <= |Fill(changes, first, limit, 0)|
    ensures Fill(changes, first + second, limit, 0) == Fill(changes, first, limit, 0)
  {
    assert Take(first + second, Room(changes, limit, 0)) == Take(first, Room(changes, limit, 0));
  }

  lemma FieldsStop(changes: seq<Change>, some: seq<Change>, values: seq<Option<Str>>, k: nat, tableId: Str, kind: Str,
                   limit: nat)
    requires k <= |values| && some == OfFields(values[..k], tableId, kind) && limit <= |changes| + |some|
    requires |some| == 1 || (|some| > 1 && |changes| + |some| <= limit)
    ensures Fill(changes, OfFields(values, tableId, kind), limit, 1) == changes + some
  {
    FieldsGrow(values, k, tableId, kind);
    FillStops(changes, some, OfFields(values, tableId, kind), limit);
  }

  lemma FillStops(changes: seq<Change>, some: seq<Change>, all: seq<Change>, limit: nat)
    requires some <= all && limit <= |changes| + |some|
    requires |some| == 1 || (|some| > 1 && |changes| + |some| <= limit)
    ensures Fill(changes, all, limit, 1) == changes + some
  {
    assert Room(changes, limit, 1) == |some| && all[..|some|] == some;
  }

  lemma FillLength(changes: seq<Change>, more: seq<Change>, limit: nat, least: nat)
    ensures |Fill(changes, more, limit, least)| <= |changes| + least || |Fill(changes, more, limit, least)| <= limit
  {}

  lemma Regroup(all: seq<Change>, a: seq<Change>, b: seq<Change>, c: seq<Change>)
    ensures all + a + b + c == all + (a + b + c)
  {}

  /** A table's three parts: each helper keeps the first changes. */
  lemma FillTable(changes: seq<Change>, all: seq<Change>, a: seq<Change>, b: seq<Change>, c: seq<Change>, limit: nat)
    requires UpTo(changes, all, limit)
    ensures UpTo(Fill(Fill(Fill(changes, a, limit, 0), b, limit, 1), c, limit, 1), all + (a + b + c), limit)
  {
    FillKeepsUpTo(changes, all, a, limit, 0);
    FillKeepsUpTo(Fill(changes, a, limit, 0), all + a, b, limit, 1);
    FillKeepsUpTo(Fill(Fill(changes, a, limit, 0), b, limit, 1), all + a + b, c, limit, 1);
    Regroup(all, a, b, c);
  }

  /** Each of the last two may add one change too many. */
  lemma FillTableLength(changes: seq<Change>, a: seq<Change>, b: seq<Change>, c: seq<Change>, limit: nat)
    requires |changes| < limit
    ensures |Fill(Fill(Fill(changes, a, limit, 0), b, limit, 1), c, limit, 1)| <= limit + 2
  {
    FillLength(changes, a, limit, 0);
    FillLength(Fill(changes, a, limit, 0), b, limit, 1);
    FillLength(Fill(Fill(changes, a, limit, 0), b, limit, 1), c, limit, 1);
  }

  lemma {:induction false} FieldsGrow(values: seq<Option<Str>>, k: nat, tableId: Str, kind: Str)
    requires k <= |values|
    ensures OfFields(values[..k], tableId, kind) <= OfFields(values, tableId, kind)
  {
    if k == |values| {
      assert values[..k] == values;
    } else {
      var front := values[..|values| - 1];
      FieldsGrow(front, k, tableId, kind);
      assert front[..k] == values[..k];
    }
  }

  lemma FieldsStep(values: seq<Option<Str>>, i: nat, tableId: Str, kind: Str)
    requires i < |values|
    ensures
      var fieldId := ReadString(values[i]);
      OfFields(values[..i + 1], tableId, kind)
      == if fieldId.None? then OfFields(values[..i], tableId, kind)
         else OfFields(values[..i], tableId, kind) + [Change(fieldId, None, Some(tableId), Some(kind))]
  {
    assert values[..i + 1][..i] == values[..i];
    assert OfFields(values[..i], tableId, kind) + [] == OfFields(values[..i], tableId, kind);
  }

  lemma {:induction false} RecordsGrow(records: seq<Record>, k: nat, tableId: Str)
    requires k <= |records|
    ensures OfRecords(records[..k], tableId) <= OfRecords(records, tableId)
  {
    if k == |records| {
      assert records[..k] == records;
    } else {
      var front := records[..|records| - 1];
      RecordsGrow(front, k, tableId);
      assert front[..k] == records[..k];
    }
  }

  lemma RecordsStep(changes: seq<Change>, records: seq<Record>, i: nat, tableId: Str, limit: nat)
    requires i < |records| && |Fill(changes, OfRecords(records[..i], tableId), limit, 0)| < limit
    ensures Fill(Fill(changes, OfRecords(records[..i], tableId), limit, 0), OfRecord(records[i], tableId), limit, 1)
         == Fill(changes, OfRecords(records[..i + 1], tableId), limit, 0)
  {
    assert records[..i + 1][..i] == records[..i];
    FillTwice(changes, OfRecords(records[..i], tableId), OfRecord(records[i], tableId), limit);
  }

  lemma RecordsFull(changes: seq<Change>, records: seq<Record>, i: nat, tableId: Str, limit: nat)
    requires i <= |records| && limit <= |Fill(changes, OfRecords(records[..i], tableId), limit, 0)|
    ensures Fill(changes, OfRecords(records, tableId), limit, 0)
      == Fill(changes, OfRecords(records[..i], tableId), limit, 0)
  {
    RecordsGrow(records, i, tableId);
    PrefixFills(changes, OfRecords(records[..i], tableId), OfRecords(records, tableId), limit);
  }

  /** A prefix that fills up to the limit fills as much as the whole. */
  lemma PrefixFills(changes: seq<Change>, first: seq<Change>, all: seq<Change>, limit: nat)
    requires first <= all && limit <= |Fill(changes, first, limit, 0)|
    ensures Fill(changes, all, limit, 0) == Fill(changes, first, limit, 0)
  {
    assert all == first + all[|first|..];
    FillFull(changes, first, all[|first|..], limit);
  }

  lemma {:induction false} EntriesGrow(entries: seq<Option<Explicit>>, k: nat)
    requires k <= |entries|
    ensures OfEntries(entries[..k]) <= OfEntries(entries)
  {
    if k == |entries| {
      assert entries[..k] == entries;
    } else {
      var front := entries[..|entries| - 1];
      EntriesGrow(front, k);
      assert front[..k] == entries[..k];
    }
  }

  lemma EntriesStep(entries: seq<Option<Explicit>>, i: nat, limit: nat)
    requires i < |entries| && |Fill([], OfEntries(entries[..i]), limit, 0)| < limit
    ensures Fill(Fill([], OfEntries(entries[..i]), limit, 0), OfEntry(entries[i]), limit, 1)
         == Fill([], OfEntries(entries[..i + 1]), limit, 0)
  {
    assert entries[..i + 1][..i] == entries[..i];
    FillTwice([], OfEntries(entries[..i]), OfEntry(entries[i]), limit);
  }

  lemma EntriesFull(entries: seq<Option<Explicit>>, i: nat, limit: nat)
    requires i <= |entries| && limit <= |Fill([], OfEntries(entries[..i]), limit, 0)|
    ensures Fill([], OfEntries(entries), limit, 0) == Fill([], OfEntries(entries[..i]), limit, 0)
  {
    EntriesGrow(entries, i);
    PrefixFills([], OfEntries(entries[..i]), OfEntries(entries), limit);
  }

  lemma {:induction false} TablesGrow(tables: seq<(Str, Option<Table>)>, k: nat)
    requires k <= |tables|
    ensures OfTables(tables[..k]) <= OfTables(tables)
  {
    if k == |tables| {
      assert tables[..k] == tables;
    } else {
      var front := tables[..|tables| - 1];
      TablesGrow(front, k);
      assert front[..k] == tables[..k];
    }
  }

  lemma TablesStep(tables: seq<(Str, Option<Table>)>, i: nat)
    requires i < |tables|
    ensures OfTables(tables[..i + 1]) == OfTables(tables[..i]) + OfTable(tables[i].1, tables[i].0)
  {
    assert tables[..i + 1][..i] == tables[..i];
  }

  lemma TablesFull(changes: seq<Change>, tables: seq<(Str, Option<Table>)>, i: nat, limit: nat)
    requires i <= |tables| && limit <= |changes| && UpTo(changes, OfTables(tables[..i]), limit)
    ensures UpTo(changes, OfTables(tables), limit)
  {
    TablesGrow(tables, i);
    PrefixUpTo(changes, OfTables(tables[..i]), OfTables(tables), limit);
  }

  lemma PrefixUpTo(changes: seq<Change>, first: seq<Change>, all: seq<Change>, limit: nat)
    requires first <= all && limit <= |changes| && UpTo(changes, first, limit)
    ensures UpTo(changes, all, limit)
  {
    assert all == first + all[|first|..];
    FullKeepsUpTo(changes, first, all[|first|..], limit);
  }

  // ---------------------------------------------------------------------------
  // The set of field ids
  // ---------------------------------------------------------------------------

  /** The set that field ids are added to; it iterates in the order of first addition. */
  class FieldIds {
    var ids: seq<Str>
    ghost var seen: seq<Option<Str>>

    ghost predicate Valid()
      reads this
    {
      ids == DistinctStrings(seen)
    }

    constructor ()
      ensures Valid() && seen == [] && ids == []
    {
      ids, seen := [], [];
    }

    method AddStringValue(value: Option<Str>)
      requires Valid()
      modifies this
      ensures Valid() && seen == old(seen) + [value]
    {
      var text := ReadString(value);
      if text.Some? && text.value !in ids { ids := ids + [text.value]; }
      seen := seen + [value];
      assert seen[..|seen| - 1] == old(seen);
    }

    method AddStringArray(values: seq<Option<Str>>)
      requires Valid()
      modifies this
      ensures Valid() && seen == old(seen) + values
    {
      for i := 0 to |values|
        invariant Valid() && seen == old(seen) + values[..i]
      {
        AddStringValue(values[i]);
      }
    }

    method AddKeys(keys: seq<Str>)
      requires Valid()
      modifies this
      ensures Valid() && seen == old(seen) + Strings(keys)
    {
      for i := 0 to |keys|
        invariant Valid() && seen == old(seen) + Strings(keys)[..i]
      {
        AddStringValue(Some(keys[i]));
      }
      assert Strings(keys)[..|keys|] == Strings(keys);
    }
  }

  // ---------------------------------------------------------------------------
  // The extractors
  // ---------------------------------------------------------------------------

  /** The array the extractors push into. */
  class Collector {
    var changes: seq<Change>
    const limit: nat

    constructor (limit: nat)
      ensures changes == [] && this.limit == limit
    {
      changes := [];
      this.limit := limit;
    }

    /** The loop over one entry's field ids. */
    method PushPerField(fields: seq<Str>, base: Change)
      modifies this
      ensures changes == Fill(old(changes), PerField(fields, base), limit, 1)
    {
      if fields == [] {
        changes := changes + [base];
        return;
      }
      var all := PerField(fields, base);
      for i := 0 to |fields|
        invariant changes == old(changes) + all[..i]
        invariant i > 0 ==> |changes| < limit
      {
        changes := changes + [base.(fieldId := Some(fields[i]))];
        assert all[..i + 1] == all[..i] + [all[i]];
        if |changes| >= limit {
          assert Take(all, i + 1) == all[..i + 1];
          return;
        }
      }
      assert all[..|fields|] == all;
    }

    /** addFieldChangesFromArray: the limit is looked at only after a change was pushed. */
    method AddFieldChangesFromArray(values: seq<Option<Str>>, tableId: Str, kind: Str)
      modifies this
      ensures changes == Fill(old(changes), OfFields(values, tableId, kind), limit, 1)
    {
      ghost var some: seq<Change> := [];
      for i := 0 to |values|
        invariant changes == old(changes) + some && some == OfFields(values[..i], tableId, kind)
        invariant some == [] || |changes| < limit
      {
        FieldsStep(values, i, tableId, kind);
        some := OfFields(values[..i + 1], tableId, kind);
        var fieldId := ReadString(values[i]);
        if fieldId.Some? {
          changes := changes + [Change(fieldId, None, Some(tableId), Some(kind))];
          if |changes| >= limit {
            FieldsStop(old(changes), some, values, i + 1, tableId, kind, limit);
            return;
          }
        }
      }
      assert values[..|values|] == values;
    }

    /** One changed record. */
    method AddRecord(record: Record, tableId: Str)
      modifies this
      ensures changes == Fill(old(changes), OfRecord(record, tableId), limit, 1)
    {
      var fieldIds := new FieldIds();
      fieldIds.AddKeys(record.current);
      fieldIds.AddKeys(record.previous);
      assert fieldIds.seen == RecordFields(record);
      PushPerField(fieldIds.ids, RecordBase(record, tableId));
    }

    /** The records of one table. */
    method AddRecords(records: seq<Record>, tableId: Str)
      modifies this
      ensures changes == Fill(old(changes), OfRecords(records, tableId), limit, 0)
    {
      for i := 0 to |records|
        invariant changes == Fill(old(changes), OfRecords(records[..i], tableId), limit, 0)
      {
        if |changes| >= limit {
          RecordsFull(old(changes), records, i, tableId, limit);
          return;
        }
        RecordsStep(old(changes), records, i, tableId, limit);
        AddRecord(records[i], tableId);
      }
      assert records[..|records|] == records;
    }

    /** One change entry of the notification itself. */
    method AddEntry(entry: Explicit)
      modifies this
      ensures changes == Fill(old(changes), OfEntry(Some(entry)), limit, 1)
    {
      var fieldIds := new FieldIds();
      fieldIds.AddStringValue(OrElse(ReadString(entry.fieldId), ReadString(entry.fieldIdSnake)));
      fieldIds.AddStringArray(entry.changed);
      fieldIds.AddStringArray(entry.changedSnake);
      assert fieldIds.seen == ExplicitFields(entry);
      PushPerField(fieldIds.ids, ExplicitBase(entry));
    }

    /** asAirtableNotificationChanges: never longer than the limit, so it needs no cut. */
    method AddExplicit(entries: seq<Option<Explicit>>)
      requires changes == []
      modifies this
      ensures changes == Take(OfEntries(entries), limit)
    {
      for i := 0 to |entries|
        invariant changes == Fill([], OfEntries(entries[..i]), limit, 0)
      {
        if |changes| >= limit {
          EntriesFull(entries, i, limit);
          return;
        }
        EntriesStep(entries, i, limit);
        if entries[i].Some? { AddEntry(entries[i].value); }
      }
      assert entries[..|entries|] == entries;
    }

    /** The loop over the changed tables; it may pass the limit, by two changes at most. */
    method AddTables(tables: seq<(Str, Option<Table>)>)
      requires changes == []
      modifies this
      ensures UpTo(changes, OfTables(tables), limit)
      ensures |changes| <= limit + 2
    {
      for i := 0 to |tables|
        invariant UpTo(changes, OfTables(tables[..i]), limit)
        invariant |changes| <= limit + 2
      {
        if |changes| >= limit {
          TablesFull(changes, tables, i, limit);
          return;
        }
        TablesStep(tables, i);
        AddTableEntry(tables[i], OfTables(tables[..i]));
      }
      assert tables[..|tables|] == tables;
    }

    /** One entry of the loop, skipped when it is not an object. */
    method AddTableEntry(entry: (Str, Option<Table>), ghost before: seq<Change>)
      requires UpTo(changes, before, limit) && |changes| < limit
      modifies this
      ensures UpTo(changes, before + OfTable(entry.1, entry.0), limit)
      ensures |changes| <= limit + 2
    {
      if entry.1.Some? {
        AddTable(entry.1.value, entry.0, before);
      } else {
        assert before + [] == before;
      }
    }

    /** One table: its records, then its created and its deleted fields. */
    method AddTable(table: Table, tableId: Str, ghost before: seq<Change>)
      requires UpTo(changes, before, limit) && |changes| < limit
      modifies this
      ensures UpTo(changes, before + OfTable(Some(table), tableId), limit)
      ensures |changes| <= limit + 2
    {
      FillTable(changes, before, OfRecords(table.records, tableId), OfFields(table.created, tableId, CREATED),
                OfFields(table.destroyed, tableId, DESTROYED), limit);
      FillTableLength(changes, OfRecords(table.records, tableId), OfFields(table.created, tableId, CREATED),
                      OfFields(table.destroyed, tableId, DESTROYED), limit);
      AddRecords(table.records, tableId);
      AddFieldChangesFromArray(table.created, tableId, CREATED);
      AddFieldChangesFromArray(table.destroyed, tableId, DESTROYED);
    }
  }

  /**
   * extractAirtableNotificationChanges: with any limit, exactly the first changes of the unlimited
   * enumeration. Callers that give none mean 50.
   */
  method ExtractAirtableNotificationChanges(n: Notification, limit: nat) returns (result: seq<Change>)
    ensures result == Take(Enumerate(n), limit)
  {
    var listed := new Collector(limit);
    listed.AddExplicit(n.changes);
    if listed.changes != [] { return listed.changes; }
    var collected := new Collector(limit);
    collected.AddTables(n.tables);
    UpToIsTake(collected.changes, OfTables(n.tables), limit);
    return Take(collected.changes, limit);
  }
}
