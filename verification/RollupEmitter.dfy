/**
 * emitWorkerErrorRollupIndexes: the imperative emitter over a file client whose reads and
 * writes may fail, and the function of the stored files that it computes
 * (packages/cloudflare/src/emit-auxiliary-files.ts:209-372, 544-562).
 */
module RollupEmitter {
  import opened Wrappers
  import opened JsStrings
  import opened UriCodec
  import opened RollupPaths
  import opened RollupRows

  /** What a stored file holds, seen through JSON.parse. */
  datatype Content =
    | Index(rows: seq<Row>)
    | Blank    // the empty text
    | Garbled  // not JSON, or not an array

  datatype Failure = ReadFailed | WriteFailed | Skipped | NoReader

  /** A call on the client that succeeded. */
  datatype Call = DidRead(path: Str) | DidWrite(path: Str)

  datatype State = State(files: map<Str, Content>, written: nat, errors: seq<(Str, Failure)>, calls: seq<Call>)

  /**
   * Which calls of one batch succeed. A batch reads a path at most once and writes it at most
   * once, so choosing by path chooses every call on its own.
   */
  datatype Weather = Weather(canRead: bool, readOk: Str -> bool, writeOk: Str -> bool)

  datatype Outcome<T> = Done(state: State, value: T) | Thrown(state: State)

  datatype Entry = Entry(hourStart: Str, record: Record)

  // ---------------------------------------------------------------------------
  // The function computed
  // ---------------------------------------------------------------------------

  /** The script and hour a record is about; None when it is skipped. */
  function Locate(record: Record, hourOf: HourReader): Option<(Str, Str)> {
    var fromId := match ReadString(record.id) case Some(id) => ParseId(id, hourOf) case None => None;
    var script :- OrElse(ReadString(record.scriptName), if fromId.Some? then Some(fromId.value.0) else None);
    var rawHour :- OrElse(ReadString(record.hourStart), if fromId.Some? then Some(fromId.value.1) else None);
    var bucket :- hourOf(rawHour);
    Some((script, bucket.hourStart))
  }

  type Locator = Record -> Option<(Str, Str)>

  function LocatorOf(hourOf: HourReader): Locator { record => Locate(record, hourOf) }

  function Accepted(records: seq<Record>, locate: Locator): seq<(Str, Entry)> {
    if records == [] then []
    else
      var last := records[|records| - 1];
      Accepted(records[..|records| - 1], locate)
      + match locate(last)
        case Some((script, hour)) => [(script, Entry(hour, last))]
        case None => []
  }

  function SkipErrors(records: seq<Record>, locate: Locator): seq<(Str, Failure)> {
    if records == [] then []
    else
      SkipErrors(records[..|records| - 1], locate)
      + if locate(records[|records| - 1]).None? then [(RootIndexPath(), Skipped)] else []
  }

  /** Distinct keys in order of first appearance: the key order of a Map of groups. */
  function FirstSeen(keys: seq<Str>): seq<Str> {
    if keys == [] then []
    else
      var seen, last := FirstSeen(keys[..|keys| - 1]), keys[|keys| - 1];
      if last in seen then seen else seen + [last]
  }

  /** The keys of a Map of groups, in order of first appearance. */
  function KeysOf(pairs: seq<(Str, Entry)>): seq<Str> {
    FirstSeen(seq(|pairs|, i requires 0 <= i < |pairs| => pairs[i].0))
  }

  /** The group under a key, in order. */
  function EntriesOf(pairs: seq<(Str, Entry)>, key: Str): seq<Entry> {
    if pairs == [] then []
    else
      var last := pairs[|pairs| - 1];
      EntriesOf(pairs[..|pairs| - 1], key) + if last.0 == key then [last.1] else []
  }

  /** `hourStart.slice(0, 10)` */
  function DatePart(hourStart: Str): Str { if |hourStart| < 10 then hourStart else hourStart[..10] }

  function Dated(entries: seq<Entry>): (r: seq<(Str, Entry)>)
    ensures |r| == |entries|
  {
    seq(|entries|, i requires 0 <= i < |entries| => (DatePart(entries[i].hourStart), entries[i]))
  }

  function Stored(files: map<Str, Content>, path: Str): Option<seq<Row>> {
    if path !in files then Some([])
    else match files[path] case Index(rows) => Some(rows) case Blank => Some([]) case Garbled => None
  }

  function ReadStrict(st: State, path: Str, io: Weather): Outcome<Option<seq<Row>>> {
    if !io.readOk(path) then Done(st.(errors := st.errors + [(path, ReadFailed)]), None)
    else
      var after := st.(calls := st.calls + [DidRead(path)]);
      match Stored(st.files, path)
      case Some(rows) => Done(after, Some(rows))
      case None => Done(after.(errors := st.errors + [(path, ReadFailed)]), None)
  }

  function SafeWrite(st: State, path: Str, rows: seq<Row>, io: Weather): State {
    if io.writeOk(path) then
      st.(files := st.files[path := Index(rows)], written := st.written + 1, calls := st.calls + [DidWrite(path)])
    else st.(errors := st.errors + [(path, WriteFailed)])
  }

  /** One record applied to a day's hour rows; None when the path printer throws. */
  function ApplyEntry(hourRows: seq<Row>, script: Str, entry: Entry, hourOf: HourReader): Option<seq<Row>> {
    if entry.record.deleted then Some(Drop(hourRows, entry.hourStart))
    else
      var row :- BuildRow(script, entry.hourStart, entry.record, hourOf);
      Some(Put(hourRows, row))
  }

  function ApplyEntries(hourRows: seq<Row>, script: Str, entries: seq<Entry>, hourOf: HourReader): Option<seq<Row>> {
    if entries == [] then Some(hourRows)
    else
      var before :- ApplyEntries(hourRows, script, entries[..|entries| - 1], hourOf);
      ApplyEntry(before, script, entries[|entries| - 1], hourOf)
  }

  /** The day index path the emitter prints from a date; None when printing throws. */
  function DayPathOfDate(script: Str, date: Str, hourOf: HourReader): Option<Str> {
    var bucket :- hourOf(Midnight(date));
    var segment :- EncodeSegment(script);
    Some(Under([segment, bucket.date, U("_index.json")]))
  }

  function PutOrDrop(rows: seq<Row>, id: Str, row: Option<Row>): seq<Row> {
    match row case Some(r) => Put(rows, r) case None => Drop(rows, id)
  }

  function EmitDay(st: State, dayRows: seq<Row>, script: Str, date: Str, entries: seq<Entry>, io: Weather,
                   hourOf: HourReader)
    : Outcome<seq<Row>>
  {
    match DayPathOfDate(script, date, hourOf)
    case None => Thrown(st)
    case Some(path) =>
      var got := ReadStrict(st, path, io);
      if got.value.None? then Done(got.state, dayRows)
      else
        match ApplyEntries(ToMap(got.value.value), script, entries, hourOf)
        case None => Thrown(got.state)
        case Some(hourRows) =>
          var hours := SortDesc(hourRows);
          Done(SafeWrite(got.state, path, hours, io),
               PutOrDrop(dayRows, date, BuildDayRow(script, date, path, hours)))
  }

  function EmitDays(st: State, dayRows: seq<Row>, script: Str, dates: seq<Str>, entries: seq<Entry>, io: Weather,
                    hourOf: HourReader): Outcome<seq<Row>>
    decreases |dates|
  {
    if dates == [] then Done(st, dayRows)
    else
      var date := dates[|dates| - 1];
      match EmitDays(st, dayRows, script, dates[..|dates| - 1], entries, io, hourOf)
      case Thrown(s) => Thrown(s)
      case Done(s, rows) => EmitDay(s, rows, script, date, EntriesOf(Dated(entries), date), io, hourOf)
  }

  datatype Root = Root(rows: seq<Row>, changed: bool)

  function EmitScript(st: State, root: Root, script: Str, entries: seq<Entry>, io: Weather, hourOf: HourReader)
    : Outcome<Root>
  {
    match ScriptIndexPath(script)
    case None => Thrown(st)
    case Some(path) =>
      var got := ReadStrict(st, path, io);
      if got.value.None? then Done(got.state, root)
      else
        match EmitDays(got.state, ToMap(got.value.value), script, KeysOf(Dated(entries)), entries, io, hourOf)
        case Thrown(s) => Thrown(s)
        case Done(s, dayRows) =>
          var days := SortDesc(dayRows);
          Done(SafeWrite(s, path, days, io),
               Root(if days == [] then Drop(root.rows, script)
                    else Put(root.rows, BuildRootRow(script, path, days[0])), true))
  }

  function EmitScripts(st: State, root: Root, scripts: seq<Str>, accepted: seq<(Str, Entry)>, io: Weather,
                       hourOf: HourReader)
    : Outcome<Root>
    decreases |scripts|
  {
    if scripts == [] then Done(st, root)
    else
      var script := scripts[|scripts| - 1];
      match EmitScripts(st, root, scripts[..|scripts| - 1], accepted, io, hourOf)
      case Thrown(s) => Thrown(s)
      case Done(s, r) => EmitScript(s, r, script, EntriesOf(accepted, script), io, hourOf)
  }

  /** The batch without records: the root index is created when it is missing or empty. */
  function EmitNothing(st: State, io: Weather): State {
    var path := RootIndexPath();
    if !io.readOk(path) then st.(errors := st.errors + [(path, ReadFailed)])
    else
      var after := st.(calls := st.calls + [DidRead(path)]);
      if path !in st.files || st.files[path] == Blank then SafeWrite(after, path, [], io) else after
  }

  function EmitAccepted(st: State, accepted: seq<(Str, Entry)>, io: Weather, hourOf: HourReader): Outcome<()> {
    var path := RootIndexPath();
    var got := ReadStrict(st, path, io);
    var rows := ToMap(match got.value case Some(rows) => rows case None => []);
    match EmitScripts(got.state, Root(rows, false), KeysOf(accepted), accepted, io, hourOf)
    case Thrown(s) => Thrown(s)
    case Done(s, root) =>
      Done(if got.value.None? || !root.changed then s else SafeWrite(s, path, SortDesc(root.rows), io), ())
  }

  function Emit(st: State, records: seq<Record>, io: Weather, hourOf: HourReader): Outcome<()> {
    if !io.canRead then
      Done(if records == [] then st else st.(errors := st.errors + [(RootIndexPath(), NoReader)]), ())
    else if records == [] then Done(EmitNothing(st, io), ())
    else
      var skipped := st.(errors := st.errors + SkipErrors(records, LocatorOf(hourOf)));
      var accepted := Accepted(records, LocatorOf(hourOf));
      if accepted == [] then Done(skipped, ()) else EmitAccepted(skipped, accepted, io, hourOf)
  }

  // ---------------------------------------------------------------------------
  // The emitter
  // ---------------------------------------------------------------------------

  /** The file client of one batch and the running result. */
  class Emitter {
    var files: map<Str, Content>
    var written: nat
    var errors: seq<(Str, Failure)>
    var calls: seq<Call>
    const io: Weather
    const hourOf: HourReader

    constructor (files: map<Str, Content>, io: Weather, hourOf: HourReader)
      ensures Snapshot() == State(files, 0, [], []) && this.io == io && this.hourOf == hourOf
    {
      this.files, this.written, this.errors, this.calls := files, 0, [], [];
      this.io, this.hourOf := io, hourOf;
    }

    function Snapshot(): State
      reads this
    {
      State(files, written, errors, calls)
    }

    method ReadIndexStrict(path: Str) returns (rows: Option<seq<Row>>)
      modifies this
      ensures Done(Snapshot(), rows) == ReadStrict(old(Snapshot()), path, io)
    {
      if !io.readOk(path) {
        errors := errors + [(path, ReadFailed)];
        return None;
      }
      calls := calls + [DidRead(path)];
      rows := Stored(files, path);
      if rows.None? { errors := errors + [(path, ReadFailed)]; }
    }

    method WriteSafely(path: Str, rows: seq<Row>)
      modifies this
      ensures Snapshot() == SafeWrite(old(Snapshot()), path, rows, io)
    {
      if io.writeOk(path) {
        files := files[path := Index(rows)];
        calls := calls + [DidWrite(path)];
        written := written + 1;
      } else {
        errors := errors + [(path, WriteFailed)];
      }
    }

    /** The inner loop: a date's records applied to its hour rows; None when a path cannot be printed. */
    method ApplyRecords(existing: seq<Row>, script: Str, entries: seq<Entry>) returns (hourRows: Option<seq<Row>>)
      ensures hourRows == ApplyEntries(ToMap(existing), script, entries, hourOf)
    {
      var rows := ToMap(existing);
      for i := 0 to |entries|
        invariant ApplyEntries(ToMap(existing), script, entries[..i], hourOf) == Some(rows)
      {
        assert entries[..i + 1][..i] == entries[..i];
        if entries[i].record.deleted {
          rows := Drop(rows, entries[i].hourStart);
        } else {
          var row := BuildRow(script, entries[i].hourStart, entries[i].record, hourOf);
          if row.None? {
            ThrowingEntry(ToMap(existing), script, entries, i, hourOf);
            return None;
          }
          rows := Put(rows, row.value);
        }
      }
      assert entries[..|entries|] == entries;
      return Some(rows);
    }

    /** Applies a date's records to its day file and to the script's day rows. */
    method EmitOneDay(dayRows: seq<Row>, script: Str, date: Str, entries: seq<Entry>)
      returns (threw: bool, rows: seq<Row>)
      modifies this
      ensures EmitDay(old(Snapshot()), dayRows, script, date, entries, io, hourOf)
        == if threw then Thrown(Snapshot()) else Done(Snapshot(), rows)
    {
      threw, rows := false, dayRows;
      var path := DayPathOfDate(script, date, hourOf);
      if path.None? { return true, rows; }
      var existing := ReadIndexStrict(path.value);
      if existing.None? { return; }
      var hourRows := ApplyRecords(existing.value, script, entries);
      if hourRows.None? { return true, rows; }
      var hours := SortDesc(hourRows.value);
      WriteSafely(path.value, hours);
      match BuildDayRow(script, date, path.value, hours)
      case Some(row) => rows := Put(rows, row);
      case None => rows := Drop(rows, date);
    }

    /** `if (!map.has(key)) map.set(key, []); map.get(key).push(entry)`, with the keys in insertion order. */
    method Push(keys: seq<Str>, groups: map<Str, seq<Entry>>, key: Str, entry: Entry)
      returns (keys': seq<Str>, groups': map<Str, seq<Entry>>)
      requires forall k :: k in groups <==> k in keys
      ensures keys' == if key in keys then keys else keys + [key]
      ensures forall k :: k in groups' <==> k in keys'
      ensures forall k :: k in keys' ==>
        groups'[k] == (if k in keys then groups[k] else []) + if k == key then [entry] else []
    {
      keys', groups' := keys, groups;
      if key !in groups {
        keys', groups' := keys + [key], groups[key := []];
      }
      groups' := groups'[key := groups'[key] + [entry]];
    }

    ghost predicate Groups(keys: seq<Str>, groups: map<Str, seq<Entry>>, pairs: seq<(Str, Entry)>) {
      && keys == KeysOf(pairs)
      && (forall k :: k in groups <==> k in keys)
      && (forall k :: k in keys ==> groups[k] == EntriesOf(pairs, k))
      && (forall k :: k !in keys ==> EntriesOf(pairs, k) == [])
    }

    /** One step of a grouping loop. */
    method PushPair(keys: seq<Str>, groups: map<Str, seq<Entry>>, ghost pairs: seq<(Str, Entry)>, key: Str,
                    entry: Entry)
      returns (keys': seq<Str>, groups': map<Str, seq<Entry>>)
      requires Groups(keys, groups, pairs)
      ensures Groups(keys', groups', pairs + [(key, entry)])
    {
      KeysOfSnoc(pairs, (key, entry));
      keys', groups' := Push(keys, groups, key, entry);
    }

    /** The Map from dates to entries. */
    method GroupByDate(entries: seq<Entry>) returns (dates: seq<Str>, byDate: map<Str, seq<Entry>>)
      ensures Groups(dates, byDate, Dated(entries))
    {
      dates, byDate := [], map[];
      ghost var pairs := [];
      for i := 0 to |entries|
        invariant pairs == Dated(entries)[..i]
        invariant Groups(dates, byDate, pairs)
      {
        dates, byDate := PushPair(dates, byDate, pairs, DatePart(entries[i].hourStart), entries[i]);
        pairs := pairs + [(DatePart(entries[i].hourStart), entries[i])];
      }
      assert Dated(entries)[..|entries|] == Dated(entries);
    }

    /** The middle loop: every date of one script. */
    method EmitEveryDay(stored: seq<Row>, script: Str, ghost entries: seq<Entry>, dates: seq<Str>,
                        byDate: map<Str, seq<Entry>>) returns (threw: bool, dayRows: seq<Row>)
      requires Groups(dates, byDate, Dated(entries))
      modifies this
      ensures EmitDays(old(Snapshot()), stored, script, dates, entries, io, hourOf)
        == if threw then Thrown(Snapshot()) else Done(Snapshot(), dayRows)
    {
      ghost var start := Snapshot();
      dayRows := stored;
      for i := 0 to |dates|
        invariant EmitDays(start, stored, script, dates[..i], entries, io, hourOf) == Done(Snapshot(), dayRows)
      {
        EmitDaysStep(start, stored, script, dates, i, entries, io, hourOf);
        var failed, rows := EmitOneDay(dayRows, script, dates[i], byDate[dates[i]]);
        if failed {
          ThrowingDay(start, stored, script, dates, i + 1, entries, io, hourOf);
          return true, dayRows;
        }
        dayRows := rows;
      }
      assert dates[..|dates|] == dates;
      threw := false;
    }

    /** Applies a script's records to its day files and its own index. */
    method EmitOneScript(root: Root, script: Str, entries: seq<Entry>) returns (threw: bool, next: Root)
      modifies this
      ensures EmitScript(old(Snapshot()), root, script, entries, io, hourOf)
        == if threw then Thrown(Snapshot()) else Done(Snapshot(), next)
    {
      threw, next := false, root;
      var path := ScriptIndexPath(script);
      if path.None? { return true, next; }
      var existing := ReadIndexStrict(path.value);
      if existing.None? { return; }
      var dates, byDate := GroupByDate(entries);
      var failed, dayRows := EmitEveryDay(ToMap(existing.value), script, entries, dates, byDate);
      if failed { return true, next; }
      var days := SortDesc(dayRows);
      WriteSafely(path.value, days);
      next := Root(if days == [] then Drop(root.rows, script)
                   else Put(root.rows, BuildRootRow(script, path.value, days[0])), true);
    }

    /** Sorts the records into scripts; a record that cannot be located is reported and skipped. */
    method GroupByScript(records: seq<Record>, locate: Locator)
      returns (scripts: seq<Str>, byScript: map<Str, seq<Entry>>)
      modifies this`errors
      ensures errors == old(errors) + SkipErrors(records, locate)
      ensures Groups(scripts, byScript, Accepted(records, locate))
    {
      scripts, byScript := [], map[];
      ghost var accepted, skips := [], [];
      for i := 0 to |records|
        invariant accepted == Accepted(records[..i], locate) && skips == SkipErrors(records[..i], locate)
        invariant errors == old(errors) + skips
        invariant Groups(scripts, byScript, accepted)
      {
        AcceptedSnoc(records, i, locate);
        var located := locate(records[i]);
        if located.None? {
          errors := errors + [(RootIndexPath(), Skipped)];
          skips := skips + [(RootIndexPath(), Skipped)];
        } else {
          var (script, hour) := located.value;
          scripts, byScript := PushPair(scripts, byScript, accepted, script, Entry(hour, records[i]));
          accepted := accepted + [(script, Entry(hour, records[i]))];
        }
      }
      assert records[..|records|] == records;
    }

    /** One round of the outer loop: the next script's group. */
    method EmitNextScript(root: Root, scripts: seq<Str>, byScript: map<Str, seq<Entry>>, i: nat, ghost start: State,
                          ghost stored: Root, ghost accepted: seq<(Str, Entry)>) returns (threw: bool, next: Root)
      requires i < |scripts| && Groups(scripts, byScript, accepted)
      requires EmitScripts(start, stored, scripts[..i], accepted, io, hourOf) == Done(Snapshot(), root)
      modifies this
      ensures EmitScripts(start, stored, scripts[..i + 1], accepted, io, hourOf)
        == if threw then Thrown(Snapshot()) else Done(Snapshot(), next)
    {
      EmitScriptsStep(start, stored, scripts, i, accepted, io, hourOf);
      threw, next := EmitOneScript(root, scripts[i], byScript[scripts[i]]);
    }

    /** The outer loop: every script of the batch. */
    method EmitEveryScript(stored: Root, ghost accepted: seq<(Str, Entry)>, scripts: seq<Str>,
                           byScript: map<Str, seq<Entry>>) returns (threw: bool, root: Root)
      requires Groups(scripts, byScript, accepted)
      modifies this
      ensures EmitScripts(old(Snapshot()), stored, scripts, accepted, io, hourOf)
        == if threw then Thrown(Snapshot()) else Done(Snapshot(), root)
    {
      ghost var start := Snapshot();
      root := stored;
      for i := 0 to |scripts|
        invariant EmitScripts(start, stored, scripts[..i], accepted, io, hourOf) == Done(Snapshot(), root)
      {
        var failed, next := EmitNextScript(root, scripts, byScript, i, start, stored, accepted);
        if failed {
          ThrowingScript(start, stored, scripts, i + 1, accepted, io, hourOf);
          return true, root;
        }
        root := next;
      }
      assert scripts[..|scripts|] == scripts;
      threw := false;
    }

    /** The batch without records. */
    method EnsureRootIndex()
      modifies this
      ensures Snapshot() == EmitNothing(old(Snapshot()), io)
    {
      var rootPath := RootIndexPath();
      if !io.readOk(rootPath) {
        errors := errors + [(rootPath, ReadFailed)];
        return;
      }
      calls := calls + [DidRead(rootPath)];
      if rootPath !in files || files[rootPath] == Blank { WriteSafely(rootPath, []); }
    }

    /** One batch; `threw` says that the call rejected instead of returning a result. */
    method EmitWorkerErrorRollupIndexes(records: seq<Record>) returns (threw: bool)
      modifies this
      ensures Emit(old(Snapshot()), records, io, hourOf)
        == if threw then Thrown(Snapshot()) else Done(Snapshot(), ())
    {
      var rootPath := RootIndexPath();
      if !io.canRead {
        if |records| > 0 { errors := errors + [(rootPath, NoReader)]; }
        return false;
      }
      if |records| == 0 {
        EnsureRootIndex();
        return false;
      }
      var scripts, byScript := GroupByScript(records, LocatorOf(hourOf));
      ghost var accepted := Accepted(records, LocatorOf(hourOf));
      KeysOfEmpty(accepted);
      if |scripts| == 0 { return false; }

      var rootExisting := ReadIndexStrict(rootPath);
      var rows := match rootExisting case Some(existing) => existing case None => [];
      var failed, root := EmitEveryScript(Root(ToMap(rows), false), accepted, scripts, byScript);
      if failed { return true; }
      if rootExisting.Some? && root.changed { WriteSafely(rootPath, SortDesc(root.rows)); }
      return false;
    }
  }

  // ---------------------------------------------------------------------------
  // How the loops advance
  // ---------------------------------------------------------------------------

  lemma FirstSeenSnoc(keys: seq<Str>, key: Str)
    ensures FirstSeen(keys + [key]) == if key in FirstSeen(keys) then FirstSeen(keys) else FirstSeen(keys) + [key]
  {
    assert (keys + [key])[..|keys|] == keys;
  }

  lemma {:induction false} FirstSeenMembers(keys: seq<Str>)
    ensures forall k :: k in FirstSeen(keys) <==> k in keys
    ensures forall i, j :: 0 <= i < j < |FirstSeen(keys)| ==> FirstSeen(keys)[i] != FirstSeen(keys)[j]
  {
    if keys == [] {
    } else {
      FirstSeenMembers(keys[..|keys| - 1]);
      assert keys == keys[..|keys| - 1] + [keys[|keys| - 1]];
    }
  }

  lemma KeysOfEmpty(pairs: seq<(Str, Entry)>)
    ensures KeysOf(pairs) == [] <==> pairs == []
  {
    var keys := seq(|pairs|, i requires 0 <= i < |pairs| => pairs[i].0);
    FirstSeenMembers(keys);
    if pairs != [] { assert keys[0] in keys; }
  }

  lemma KeysOfSnoc(pairs: seq<(Str, Entry)>, last: (Str, Entry))
    ensures KeysOf(pairs + [last]) == if last.0 in KeysOf(pairs) then KeysOf(pairs) else KeysOf(pairs) + [last.0]
    ensures forall k :: EntriesOf(pairs + [last], k) == EntriesOf(pairs, k) + if k == last.0 then [last.1] else []
  {
    var both := pairs + [last];
    assert both[..|pairs|] == pairs;
    var keys := seq(|pairs|, i requires 0 <= i < |pairs| => pairs[i].0);
    FirstSeenSnoc(keys, last.0);
    assert keys + [last.0] == seq(|both|, i requires 0 <= i < |both| => both[i].0);
  }

  lemma AcceptedSnoc(records: seq<Record>, i: nat, locate: Locator)
    requires i < |records|
    ensures Accepted(records[..i + 1], locate) == Accepted(records[..i], locate)
      + if locate(records[i]).Some?
        then [(locate(records[i]).value.0, Entry(locate(records[i]).value.1, records[i]))] else []
    ensures SkipErrors(records[..i + 1], locate) == SkipErrors(records[..i], locate)
      + if locate(records[i]).None? then [(RootIndexPath(), Skipped)] else []
  {
    assert records[..i + 1][..i] == records[..i];
  }

  lemma {:induction false} ThrowingEntry(rows: seq<Row>, script: Str, entries: seq<Entry>, i: nat, hourOf: HourReader)
    requires i < |entries| && !entries[i].record.deleted
    requires BuildRow(script, entries[i].hourStart, entries[i].record, hourOf).None?
    ensures ApplyEntries(rows, script, entries, hourOf).None?
    decreases |entries|
  {
    if i < |entries| - 1 { ThrowingEntry(rows, script, entries[..|entries| - 1], i, hourOf); }
  }

  lemma EmitDaysStep(st: State, rows: seq<Row>, script: Str, dates: seq<Str>, i: nat, entries: seq<Entry>, io: Weather,
                     hourOf: HourReader)
    requires i < |dates|
    ensures EmitDays(st, rows, script, dates[..i + 1], entries, io, hourOf)
      == match EmitDays(st, rows, script, dates[..i], entries, io, hourOf)
         case Thrown(s) => Thrown(s)
         case Done(s, r) => EmitDay(s, r, script, dates[i], EntriesOf(Dated(entries), dates[i]), io, hourOf)
  {
    assert dates[..i + 1][..i] == dates[..i];
  }

  lemma EmitScriptsStep(st: State, root: Root, scripts: seq<Str>, i: nat, accepted: seq<(Str, Entry)>, io: Weather,
                        hourOf: HourReader)
    requires i < |scripts|
    ensures EmitScripts(st, root, scripts[..i + 1], accepted, io, hourOf)
      == match EmitScripts(st, root, scripts[..i], accepted, io, hourOf)
         case Thrown(s) => Thrown(s)
         case Done(s, r) => EmitScript(s, r, scripts[i], EntriesOf(accepted, scripts[i]), io, hourOf)
  {
    assert scripts[..i + 1][..i] == scripts[..i];
  }

  lemma {:induction false} ThrowingDay(st: State, rows: seq<Row>, script: Str, dates: seq<Str>, n: nat,
                                       entries: seq<Entry>, io: Weather, hourOf: HourReader)
    requires n <= |dates| && EmitDays(st, rows, script, dates[..n], entries, io, hourOf).Thrown?
    ensures EmitDays(st, rows, script, dates, entries, io, hourOf)
      == EmitDays(st, rows, script, dates[..n], entries, io, hourOf)
    decreases |dates|
  {
    if n < |dates| {
      assert dates[..|dates| - 1][..n] == dates[..n];
      ThrowingDay(st, rows, script, dates[..|dates| - 1], n, entries, io, hourOf);
    } else {
      assert dates[..n] == dates;
    }
  }

  lemma {:induction false} ThrowingScript(st: State, root: Root, scripts: seq<Str>, n: nat, accepted: seq<(Str, Entry)>,
                                          io: Weather, hourOf: HourReader)
    requires n <= |scripts| && EmitScripts(st, root, scripts[..n], accepted, io, hourOf).Thrown?
    ensures EmitScripts(st, root, scripts, accepted, io, hourOf)
      == EmitScripts(st, root, scripts[..n], accepted, io, hourOf)
    decreases |scripts|
  {
    if n < |scripts| {
      assert scripts[..|scripts| - 1][..n] == scripts[..n];
      ThrowingScript(st, root, scripts[..|scripts| - 1], n, accepted, io, hourOf);
    } else {
      assert scripts[..n] == scripts;
    }
  }
}
