/**
 * What one batch does to every index file when writes succeed and reads succeed or fail
 * arbitrarily: each file that could be read is its own table with the batch's records applied,
 * every other file is untouched.
 */
module RollupEffects {
  import opened Wrappers
  import opened JsStrings
  import opened PathSegments
  import opened RollupPaths
  import opened RollupRows
  import opened RollupEmitter
  import opened RollupRefinement

  type Files = map<Str, Content>

  function LookUp(table: map<Str, Row>, k: Str): Option<Row> { if k in table then Some(table[k]) else None }

  ghost predicate SameAt(f: Files, g: Files, p: Str) {
    (p in f <==> p in g) && (p in f ==> f[p] == g[p])
  }

  /** Writes succeed; reads may fail. */
  ghost predicate WritesSucceed(io: Weather) { io.canRead && forall p :: io.writeOk(p) }

  predicate CanRead(f: Files, io: Weather, p: Str) { io.readOk(p) && Stored(f, p).Some? }

  /** The file holds the table, each row once, latest first. */
  ghost predicate Holds(g: Files, p: Str, table: map<Str, Row>) {
    p in g && g[p].Index? && Tabulates(g[p].rows, table) && Descending(g[p].rows)
  }

  function DayEntries(entries: seq<Entry>, d: Str): seq<Entry> { EntriesOf(Dated(entries), d) }

  ghost predicate DayEffect(f: Files, g: Files, io: Weather, s: Str, d: Str, entries: seq<Entry>, hourOf: HourReader) {
    if CanRead(f, io, DayPath(s, d)) then
      Holds(g, DayPath(s, d), TableApply(ById(ListAt(f, DayPath(s, d))), s, DayEntries(entries, d), ChangesOf(hourOf)))
    else SameAt(f, g, DayPath(s, d))
  }

  ghost predicate GoodDates(s: Str, dates: seq<Str>, entries: seq<Entry>, hourOf: HourReader) {
    && (forall i, j :: 0 <= i < j < |dates| ==> dates[i] != dates[j])
    && (forall d :: d in dates ==>
         Plain(d) && DayPathOfDate(s, d, hourOf) == Some(DayPath(s, d)) && GoodEntries(DayEntries(entries, d), hourOf))
  }

  function ChangeRow(table: map<Str, Row>, id: Str, row: Option<Row>): map<Str, Row> {
    match row case Some(r) => table[id := r] case None => table - {id}
  }

  lemma PutOrDropTabulates(rows: seq<Row>, table: map<Str, Row>, id: Str, row: Option<Row>)
    requires Tabulates(rows, table) && (row.Some? ==> row.value.id == id)
    ensures Tabulates(PutOrDrop(rows, id, row), ChangeRow(table, id, row))
  {
    match row
    case Some(r) => PutTabulates(rows, table, r);
    case None => DropTabulates(rows, table, id);
  }

  /** One date's step: its file, the script's day rows, and nothing else. */
  ghost predicate OneDay(f: Files, g: Files, io: Weather, s: Str, d: Str, entries: seq<Entry>, hourOf: HourReader,
                         sum: Summarizer, table: map<Str, Row>, table': map<Str, Row>)
  {
    var p := DayPath(s, d);
    && (forall q :: q != p ==> SameAt(f, g, q))
    && if CanRead(f, io, p) then
         && Holds(g, p, TableApply(ById(ListAt(f, p)), s, entries, ChangesOf(hourOf)))
         && table' == ChangeRow(table, d, sum(d, ListAt(g, p)))
       else SameAt(f, g, p) && table' == table
  }

  /** What a readable day becomes. */
  lemma EmitDayReads(st: State, dayRows: seq<Row>, s: Str, d: Str, entries: seq<Entry>, io: Weather, hourOf: HourReader)
    returns (hours: seq<Row>, row: Option<Row>)
    requires WritesSucceed(io) && ScriptName(s) && GoodEntries(entries, hourOf)
    requires DayPathOfDate(s, d, hourOf) == Some(DayPath(s, d)) && CanRead(st.files, io, DayPath(s, d))
    ensures
      var result, p := EmitDay(st, dayRows, s, d, entries, io, hourOf), DayPath(s, d);
      && result.Done? && result.value == PutOrDrop(dayRows, d, row)
      && result.state.files == st.files[p := Index(hours)]
    ensures row == SummarizerOf(s)(d, hours) && (row.Some? ==> row.value.id == d)
    ensures Tabulates(hours, TableApply(ById(ListAt(st.files, DayPath(s, d))), s, entries, ChangesOf(hourOf)))
    ensures Descending(hours)
  {
    var rows := ListAt(st.files, DayPath(s, d));
    ToMapTabulates(rows);
    ApplyEntriesTabulates(ToMap(rows), ById(rows), s, entries, hourOf);
    var hourRows := ApplyEntries(ToMap(rows), s, entries, hourOf).value;
    SortTabulates(hourRows, TableApply(ById(rows), s, entries, ChangesOf(hourOf)));
    hours := SortDesc(hourRows);
    row := BuildDayRow(s, d, DayPath(s, d), hours);
  }

  lemma EmitDayBlocked(st: State, dayRows: seq<Row>, s: Str, d: Str, entries: seq<Entry>, io: Weather,
                       hourOf: HourReader)
    requires DayPathOfDate(s, d, hourOf) == Some(DayPath(s, d)) && !CanRead(st.files, io, DayPath(s, d))
    ensures
      var result := EmitDay(st, dayRows, s, d, entries, io, hourOf);
      && result.Done? && result.value == dayRows && result.state.files == st.files
  {}

  lemma DayWritten(f: Files, io: Weather, s: Str, d: Str, entries: seq<Entry>, hourOf: HourReader, sum: Summarizer,
                   table: map<Str, Row>, hours: seq<Row>)
    requires CanRead(f, io, DayPath(s, d)) && Descending(hours)
    requires Tabulates(hours, TableApply(ById(ListAt(f, DayPath(s, d))), s, entries, ChangesOf(hourOf)))
    ensures OneDay(f, f[DayPath(s, d) := Index(hours)], io, s, d, entries, hourOf, sum, table,
                   ChangeRow(table, d, sum(d, hours)))
  {}

  lemma EmitDayEffect(st: State, dayRows: seq<Row>, table: map<Str, Row>, s: Str, d: Str, entries: seq<Entry>,
                      io: Weather, hourOf: HourReader, sum: Summarizer) returns (table': map<Str, Row>)
    requires WritesSucceed(io) && ScriptName(s) && GoodEntries(entries, hourOf) && sum == SummarizerOf(s)
    requires DayPathOfDate(s, d, hourOf) == Some(DayPath(s, d))
    requires Tabulates(dayRows, table)
    ensures
      var result := EmitDay(st, dayRows, s, d, entries, io, hourOf);
      && result.Done? && Tabulates(result.value, table')
      && OneDay(st.files, result.state.files, io, s, d, entries, hourOf, sum, table, table')
  {
    if CanRead(st.files, io, DayPath(s, d)) {
      var hours, row := EmitDayReads(st, dayRows, s, d, entries, io, hourOf);
      PutOrDropTabulates(dayRows, table, d, row);
      table' := ChangeRow(table, d, row);
      DayWritten(st.files, io, s, d, entries, hourOf, sum, table, hours);
    } else {
      EmitDayBlocked(st, dayRows, s, d, entries, io, hourOf);
      table' := table;
    }
  }

  /** Every date's step: each date's file, the script's day rows, and nothing else. */
  ghost predicate DaysEffect(f: Files, g: Files, io: Weather, s: Str, dates: seq<Str>, entries: seq<Entry>,
                             hourOf: HourReader, sum: Summarizer, table: map<Str, Row>, table': map<Str, Row>)
  {
    && (forall d :: d in dates ==> DayEffect(f, g, io, s, d, entries, hourOf))
    && (forall d :: LookUp(table', d) ==
         if d in dates && CanRead(f, io, DayPath(s, d)) then sum(d, ListAt(g, DayPath(s, d))) else LookUp(table, d))
    && (forall p :: (forall d :: d in dates ==> p != DayPath(s, d)) ==> SameAt(f, g, p))
  }

  lemma DayEffectFrame(f: Files, m: Files, f': Files, g: Files, io: Weather, s: Str, d: Str, entries: seq<Entry>,
                       hourOf: HourReader)
    requires SameAt(f, f', DayPath(s, d)) && SameAt(m, g, DayPath(s, d))
    ensures DayEffect(f, m, io, s, d, entries, hourOf) ==> DayEffect(f', g, io, s, d, entries, hourOf)
    ensures ListAt(g, DayPath(s, d)) == ListAt(m, DayPath(s, d))
    ensures CanRead(f', io, DayPath(s, d)) == CanRead(f, io, DayPath(s, d))
  {}

  /** The script's rows after one date more. */
  lemma DayRowsStep(f: Files, m: Files, g: Files, io: Weather, s: Str, front: seq<Str>, last: Str, sum: Summarizer,
                    table: map<Str, Row>, table1: map<Str, Row>, table2: map<Str, Row>)
    requires last !in front && CanRead(m, io, DayPath(s, last)) == CanRead(f, io, DayPath(s, last))
    requires forall d :: d in front ==> ListAt(g, DayPath(s, d)) == ListAt(m, DayPath(s, d))
    requires forall d ::
      LookUp(table1, d)
      == if d in front && CanRead(f, io, DayPath(s, d)) then sum(d, ListAt(m, DayPath(s, d))) else LookUp(table, d)
    requires table2
      == if CanRead(m, io, DayPath(s, last)) then ChangeRow(table1, last, sum(last, ListAt(g, DayPath(s, last))))
         else table1
    ensures forall d ::
      LookUp(table2, d)
      == if d in front + [last] && CanRead(f, io, DayPath(s, d)) then sum(d, ListAt(g, DayPath(s, d)))
         else LookUp(table, d)
  {}

  lemma DaysEffectStep(f: Files, m: Files, g: Files, io: Weather, s: Str, front: seq<Str>, last: Str,
                       entries: seq<Entry>, hourOf: HourReader, sum: Summarizer, table: map<Str, Row>,
                       table1: map<Str, Row>, table2: map<Str, Row>)
    requires forall d :: d in front ==> DayPath(s, d) != DayPath(s, last)
    requires DaysEffect(f, m, io, s, front, entries, hourOf, sum, table, table1)
    requires OneDay(m, g, io, s, last, DayEntries(entries, last), hourOf, sum, table1, table2)
    ensures DaysEffect(f, g, io, s, front + [last], entries, hourOf, sum, table, table2)
  {
    assert SameAt(f, m, DayPath(s, last));
    forall d | d in front
      ensures DayEffect(f, g, io, s, d, entries, hourOf) && ListAt(g, DayPath(s, d)) == ListAt(m, DayPath(s, d))
    {
      DayEffectFrame(f, m, f, g, io, s, d, entries, hourOf);
    }
    DayRowsStep(f, m, g, io, s, front, last, sum, table, table1, table2);
    forall p | forall d :: d in front + [last] ==> p != DayPath(s, d)
      ensures SameAt(f, g, p)
    {
      NoDayPath(p, s, front, last);
      assert SameAt(f, m, p) && SameAt(m, g, p);
    }
  }

  lemma NoDayPath(p: Str, s: Str, front: seq<Str>, last: Str)
    requires forall d :: d in front + [last] ==> p != DayPath(s, d)
    ensures p != DayPath(s, last) && forall d :: d in front ==> p != DayPath(s, d)
  {
    assert last in front + [last];
    assert forall d :: d in front ==> d in front + [last];
  }

  lemma {:induction false} EmitDaysEffect(st: State, dayRows: seq<Row>, table: map<Str, Row>, s: Str, dates: seq<Str>,
                                          entries: seq<Entry>, io: Weather, hourOf: HourReader, sum: Summarizer)
    returns (table': map<Str, Row>)
    requires WritesSucceed(io) && ScriptName(s) && GoodDates(s, dates, entries, hourOf) && sum == SummarizerOf(s)
    requires Tabulates(dayRows, table)
    ensures
      var result := EmitDays(st, dayRows, s, dates, entries, io, hourOf);
      && result.Done? && Tabulates(result.value, table')
      && DaysEffect(st.files, result.state.files, io, s, dates, entries, hourOf, sum, table, table')
    decreases |dates|
  {
    table' := table;
    if dates == [] {
    } else {
      var last, front := dates[|dates| - 1], dates[..|dates| - 1];
      assert dates == front + [last];
      var table1 := EmitDaysEffect(st, dayRows, table, s, front, entries, io, hourOf, sum);
      var mid := EmitDays(st, dayRows, s, front, entries, io, hourOf);
      forall d | d in front ensures DayPath(s, d) != DayPath(s, last) { PathsDiffer(s, d, s, last); }
      table' := EmitDayEffect(mid.state, mid.value, table1, s, last, DayEntries(entries, last), io, hourOf, sum);
      var end := EmitDay(mid.state, mid.value, s, last, DayEntries(entries, last), io, hourOf);
      DaysEffectStep(st.files, mid.state.files, end.state.files, io, s, front, last, entries, hourOf, sum, table,
                     table1, table');
    }
  }

  // ---------------------------------------------------------------------------
  // One script
  // ---------------------------------------------------------------------------

  function DatesIn(entries: seq<Entry>): seq<Str> { KeysOf(Dated(entries)) }

  lemma {:induction false} EntriesOfMembers(pairs: seq<(Str, Entry)>, key: Str)
    ensures forall e :: e in EntriesOf(pairs, key) <==> (key, e) in pairs
  {
    if pairs == [] {
    } else {
      var last, front := pairs[|pairs| - 1], pairs[..|pairs| - 1];
      assert pairs == front + [last];
      EntriesOfMembers(front, key);
    }
  }

  lemma KeysOfMembers(pairs: seq<(Str, Entry)>)
    ensures forall k :: k in KeysOf(pairs) <==> exists e :: (k, e) in pairs
    ensures forall i, j :: 0 <= i < j < |KeysOf(pairs)| ==> KeysOf(pairs)[i] != KeysOf(pairs)[j]
  {
    var keys := seq(|pairs|, i requires 0 <= i < |pairs| => pairs[i].0);
    FirstSeenMembers(keys);
    forall k ensures k in keys <==> exists e :: (k, e) in pairs {
      if k in keys {
        var i :| 0 <= i < |keys| && keys[i] == k;
        assert pairs[i] == (k, pairs[i].1);
      }
      if e :| (k, e) in pairs {
        var i :| 0 <= i < |pairs| && pairs[i] == (k, e);
        assert keys[i] == k;
      }
    }
  }

  lemma DatedMembers(entries: seq<Entry>)
    ensures forall k, e :: (k, e) in Dated(entries) <==> e in entries && k == DatePart(e.hourStart)
  {
    forall k, e ensures (k, e) in Dated(entries) <==> e in entries && k == DatePart(e.hourStart) {
      if e in entries && k == DatePart(e.hourStart) {
        var i :| 0 <= i < |entries| && entries[i] == e;
        assert Dated(entries)[i] == (k, e);
      }
    }
  }

  lemma GoodDatesIn(s: Str, entries: seq<Entry>, hourOf: HourReader)
    requires ScriptName(s) && GoodEntries(entries, hourOf)
    ensures GoodDates(s, DatesIn(entries), entries, hourOf)
  {
    KeysOfMembers(Dated(entries));
    DatedMembers(entries);
    forall d | d in DatesIn(entries)
      ensures Plain(d) && DayPathOfDate(s, d, hourOf) == Some(DayPath(s, d))
        && GoodEntries(DayEntries(entries, d), hourOf)
    {
      var e :| (d, e) in Dated(entries);
      assert HourKey(e.hourStart, hourOf);
      HourKeyFacts(e.hourStart, s, e.record, hourOf);
      EntriesOfMembers(Dated(entries), d);
      forall i | 0 <= i < |DayEntries(entries, d)| ensures HourKey(DayEntries(entries, d)[i].hourStart, hourOf) {
        assert DayEntries(entries, d)[i] in DayEntries(entries, d);
      }
    }
  }

  /** A script's index and day files. */
  ghost predicate Touches(p: Str, s: Str, entries: seq<Entry>) {
    p == ScriptPath(s) || exists d :: d in DatesIn(entries) && p == DayPath(s, d)
  }

  ghost predicate ScriptEffect(f: Files, g: Files, io: Weather, s: Str, entries: seq<Entry>, hourOf: HourReader,
                               sum: Summarizer)
  {
    var p, before, after := ScriptPath(s), ById(ListAt(f, ScriptPath(s))), ById(ListAt(g, ScriptPath(s)));
    if CanRead(f, io, p) then
      && (forall d :: d in DatesIn(entries) ==> DayEffect(f, g, io, s, d, entries, hourOf))
      && Holds(g, p, after)
      && (forall d :: LookUp(after, d) ==
           if d in DatesIn(entries) && CanRead(f, io, DayPath(s, d)) then sum(d, ListAt(g, DayPath(s, d)))
           else LookUp(before, d))
    else forall q :: Touches(q, s, entries) ==> SameAt(f, g, q)
  }

  ghost predicate OneScript(f: Files, g: Files, io: Weather, s: Str, entries: seq<Entry>, hourOf: HourReader,
                            sum: Summarizer, table: map<Str, Row>, table': map<Str, Row>)
  {
    && ScriptEffect(f, g, io, s, entries, hourOf, sum)
    && (forall q :: !Touches(q, s, entries) ==> SameAt(f, g, q))
    && table' == if CanRead(f, io, ScriptPath(s)) then ChangeRow(table, s, RootRowOf(g, s)) else table
  }

  /** What a readable script becomes, in terms of its day rows. */
  lemma EmitScriptReads(st: State, root: Root, s: Str, entries: seq<Entry>, io: Weather, hourOf: HourReader)
    requires WritesSucceed(io) && ScriptName(s) && CanRead(st.files, io, ScriptPath(s))
    requires
      var start := ReadStrict(st, ScriptPath(s), io).state;
      EmitDays(start, ToMap(ListAt(st.files, ScriptPath(s))), s, DatesIn(entries), entries, io, hourOf).Done?
    ensures
      var start := ReadStrict(st, ScriptPath(s), io).state;
      var days := EmitDays(start, ToMap(ListAt(st.files, ScriptPath(s))), s, DatesIn(entries), entries, io, hourOf);
      var result, list := EmitScript(st, root, s, entries, io, hourOf), SortDesc(days.value);
      && start.files == st.files
      && result.Done? && result.value.changed
      && result.state.files == days.state.files[ScriptPath(s) := Index(list)]
      && result.value.rows
        == PutOrDrop(root.rows, s, if list == [] then None else Some(BuildRootRow(s, ScriptPath(s), list[0])))
  {
    SegmentFacts(s, s);
  }

  lemma EmitScriptBlocked(st: State, root: Root, s: Str, entries: seq<Entry>, io: Weather, hourOf: HourReader)
    requires ScriptName(s) && !CanRead(st.files, io, ScriptPath(s))
    ensures
      var result := EmitScript(st, root, s, entries, io, hourOf);
      && result.Done? && result.value == root && result.state.files == st.files
  {
    SegmentFacts(s, s);
  }

  /** From the day rows to the script's own file. */
  lemma ScriptFileEffect(f: Files, m: Files, g: Files, io: Weather, s: Str, entries: seq<Entry>, hourOf: HourReader,
                         sum: Summarizer, list: seq<Row>, table': map<Str, Row>)
    requires CanRead(f, io, ScriptPath(s))
    requires forall d :: d in DatesIn(entries) ==> DayPath(s, d) != ScriptPath(s)
    requires DaysEffect(f, m, io, s, DatesIn(entries), entries, hourOf, sum, ById(ListAt(f, ScriptPath(s))), table')
    requires Tabulates(list, table') && Descending(list)
    requires g == m[ScriptPath(s) := Index(list)]
    ensures ScriptEffect(f, g, io, s, entries, hourOf, sum)
    ensures forall q :: !Touches(q, s, entries) ==> SameAt(f, g, q)
    ensures RootRowOf(g, s) == if list == [] then None else Some(BuildRootRow(s, ScriptPath(s), list[0]))
  {
    TabulatesById(list, table');
    assert ListAt(g, ScriptPath(s)) == list;
    forall d | d in DatesIn(entries)
      ensures DayEffect(f, g, io, s, d, entries, hourOf) && ListAt(g, DayPath(s, d)) == ListAt(m, DayPath(s, d))
    {
      assert SameAt(m, g, DayPath(s, d));
    }
    forall q | !Touches(q, s, entries) ensures SameAt(f, g, q) {
      assert SameAt(f, m, q);
    }
  }

  lemma EmitScriptEffect(st: State, root: Root, table: map<Str, Row>, s: Str, entries: seq<Entry>, io: Weather,
                         hourOf: HourReader, sum: Summarizer) returns (table': map<Str, Row>)
    requires WritesSucceed(io) && ScriptName(s) && GoodEntries(entries, hourOf) && sum == SummarizerOf(s)
    requires Tabulates(root.rows, table)
    ensures
      var result := EmitScript(st, root, s, entries, io, hourOf);
      && result.Done? && Tabulates(result.value.rows, table')
      && result.value.changed == (root.changed || CanRead(st.files, io, ScriptPath(s)))
      && OneScript(st.files, result.state.files, io, s, entries, hourOf, sum, table, table')
  {
    var f, p := st.files, ScriptPath(s);
    table' := table;
    if !CanRead(f, io, p) {
      EmitScriptBlocked(st, root, s, entries, io, hourOf);
    } else {
      GoodDatesIn(s, entries, hourOf);
      ToMapTabulates(ListAt(f, p));
      var start := ReadStrict(st, p, io).state;
      var dayTable :=
        EmitDaysEffect(start, ToMap(ListAt(f, p)), ById(ListAt(f, p)), s, DatesIn(entries), entries, io, hourOf, sum);
      var days := EmitDays(start, ToMap(ListAt(f, p)), s, DatesIn(entries), entries, io, hourOf);
      EmitScriptReads(st, root, s, entries, io, hourOf);
      SortTabulates(days.value, dayTable);
      forall d | d in DatesIn(entries) ensures DayPath(s, d) != p { PathsDiffer(s, d, s, d); }
      var g, list := EmitScript(st, root, s, entries, io, hourOf).state.files, SortDesc(days.value);
      ScriptFileEffect(f, days.state.files, g, io, s, entries, hourOf, sum, list, dayTable);
      PutOrDropTabulates(root.rows, table, s, RootRowOf(g, s));
      table' := ChangeRow(table, s, RootRowOf(g, s));
    }
  }

  // ---------------------------------------------------------------------------
  // The batch
  // ---------------------------------------------------------------------------

  ghost predicate TouchedByOne(p: Str, scripts: seq<Str>, accepted: seq<(Str, Entry)>) {
    exists s :: s in scripts && Touches(p, s, EntriesOf(accepted, s))
  }

  ghost predicate ScriptsEffect(f: Files, g: Files, io: Weather, scripts: seq<Str>, accepted: seq<(Str, Entry)>,
                                hourOf: HourReader, sums: Str -> Summarizer, table: map<Str, Row>,
                                table': map<Str, Row>)
  {
    && (forall s :: s in scripts ==> ScriptEffect(f, g, io, s, EntriesOf(accepted, s), hourOf, sums(s)))
    && (forall s :: LookUp(table', s) ==
         if s in scripts && CanRead(f, io, ScriptPath(s)) then RootRowOf(g, s) else LookUp(table, s))
    && (forall p :: !TouchedByOne(p, scripts, accepted) ==> SameAt(f, g, p))
  }

  /** Two scripts never touch the same file, and neither touches the root index. */
  lemma TouchesApart(a: Str, b: Str, x: seq<Entry>, y: seq<Entry>, p: Str, hourOf: HourReader)
    requires ScriptName(a) && ScriptName(b) && GoodEntries(x, hourOf) && GoodEntries(y, hourOf)
    requires Touches(p, a, x)
    ensures p != RootIndexPath()
    ensures a != b ==> !Touches(p, b, y)
  {
    GoodDatesIn(a, x, hourOf);
    GoodDatesIn(b, y, hourOf);
    PathsDiffer(a, [], b, []);
    PathsDiffer(b, [], a, []);
    forall d | d in DatesIn(x)
      ensures DayPath(a, d) != RootIndexPath() && (a != b ==> DayPath(a, d) != ScriptPath(b))
      ensures forall e :: e in DatesIn(y) && a != b ==> DayPath(a, d) != DayPath(b, e)
    {
      PathsDiffer(a, d, b, d);
      PathsDiffer(b, d, a, d);
      forall e | e in DatesIn(y) && a != b ensures DayPath(a, d) != DayPath(b, e) { PathsDiffer(a, d, b, e); }
    }
    forall e | e in DatesIn(y) && a != b ensures DayPath(b, e) != ScriptPath(a) { PathsDiffer(a, e, b, e); }
  }

  /** A script's effect depends only on the files it touches. */
  lemma ScriptEffectFrame(f: Files, m: Files, f': Files, g: Files, io: Weather, s: Str, entries: seq<Entry>,
                          hourOf: HourReader, sum: Summarizer)
    requires ScriptEffect(f, m, io, s, entries, hourOf, sum)
    requires forall q :: Touches(q, s, entries) ==> SameAt(f, f', q) && SameAt(m, g, q)
    ensures ScriptEffect(f', g, io, s, entries, hourOf, sum)
    ensures CanRead(f', io, ScriptPath(s)) == CanRead(f, io, ScriptPath(s)) && RootRowOf(g, s) == RootRowOf(m, s)
  {
    assert Touches(ScriptPath(s), s, entries);
    assert SameAt(f, f', ScriptPath(s)) && SameAt(m, g, ScriptPath(s));
    if CanRead(f, io, ScriptPath(s)) {
      forall d | d in DatesIn(entries)
        ensures ListAt(g, DayPath(s, d)) == ListAt(m, DayPath(s, d))
        ensures CanRead(f', io, DayPath(s, d)) == CanRead(f, io, DayPath(s, d))
        ensures DayEffect(f', g, io, s, d, entries, hourOf)
      {
        assert Touches(DayPath(s, d), s, entries);
        DayEffectFrame(f, m, f', g, io, s, d, entries, hourOf);
      }
    }
  }

  /** The last script's effect, seen from the files before the others. */
  lemma LastScriptAlone(f: Files, m: Files, g: Files, io: Weather, front: seq<Str>, last: Str,
                        accepted: seq<(Str, Entry)>, hourOf: HourReader, sums: Str -> Summarizer, table: map<Str, Row>,
                        table1: map<Str, Row>, table2: map<Str, Row>)
    requires last !in front && ScriptsEffect(f, m, io, front, accepted, hourOf, sums, table, table1)
    requires OneScript(m, g, io, last, EntriesOf(accepted, last), hourOf, sums(last), table1, table2)
    requires forall p, s :: s in front && Touches(p, s, EntriesOf(accepted, s)) ==>
      !Touches(p, last, EntriesOf(accepted, last))
    ensures ScriptEffect(f, g, io, last, EntriesOf(accepted, last), hourOf, sums(last))
    ensures CanRead(m, io, ScriptPath(last)) == CanRead(f, io, ScriptPath(last))
  {
    var entries := EntriesOf(accepted, last);
    forall q | Touches(q, last, entries) ensures SameAt(f, m, q) {
      assert !TouchedByOne(q, front, accepted);
    }
    ScriptEffectFrame(m, g, f, g, io, last, entries, hourOf, sums(last));
  }

  lemma ScriptsEffectStep(f: Files, m: Files, g: Files, io: Weather, front: seq<Str>, last: Str,
                          accepted: seq<(Str, Entry)>, hourOf: HourReader, sums: Str -> Summarizer,
                          table: map<Str, Row>, table1: map<Str, Row>, table2: map<Str, Row>)
    requires last !in front && ScriptsEffect(f, m, io, front, accepted, hourOf, sums, table, table1)
    requires OneScript(m, g, io, last, EntriesOf(accepted, last), hourOf, sums(last), table1, table2)
    requires forall p, s :: s in front && Touches(p, s, EntriesOf(accepted, s)) ==>
      !Touches(p, last, EntriesOf(accepted, last))
    requires forall r :: RootRowOf(g, last) == Some(r) ==> r.id == last
    ensures ScriptsEffect(f, g, io, front + [last], accepted, hourOf, sums, table, table2)
  {
    LastScriptAlone(f, m, g, io, front, last, accepted, hourOf, sums, table, table1, table2);
    forall s | s in front
      ensures ScriptEffect(f, g, io, s, EntriesOf(accepted, s), hourOf, sums(s)) && RootRowOf(g, s) == RootRowOf(m, s)
    {
      forall q | Touches(q, s, EntriesOf(accepted, s)) ensures SameAt(m, g, q) {}
      ScriptEffectFrame(f, m, f, g, io, s, EntriesOf(accepted, s), hourOf, sums(s));
    }
    RootRowsStep(f, m, g, io, front, last, table, table1, table2);
    forall p | !TouchedByOne(p, front + [last], accepted) ensures SameAt(f, g, p) {
      UntouchedParts(p, front, last, accepted);
      assert SameAt(f, m, p) && SameAt(m, g, p);
    }
  }

  /** The root's rows after one script more. */
  lemma RootRowsStep(f: Files, m: Files, g: Files, io: Weather, front: seq<Str>, last: Str, table: map<Str, Row>,
                     table1: map<Str, Row>, table2: map<Str, Row>)
    requires last !in front && CanRead(m, io, ScriptPath(last)) == CanRead(f, io, ScriptPath(last))
    requires forall s :: s in front ==> RootRowOf(g, s) == RootRowOf(m, s)
    requires forall s ::
      LookUp(table1, s) == if s in front && CanRead(f, io, ScriptPath(s)) then RootRowOf(m, s) else LookUp(table, s)
    requires table2 == if CanRead(m, io, ScriptPath(last)) then ChangeRow(table1, last, RootRowOf(g, last)) else table1
    ensures forall s ::
      LookUp(table2, s)
      == if s in front + [last] && CanRead(f, io, ScriptPath(s)) then RootRowOf(g, s) else LookUp(table, s)
  {}

  lemma UntouchedParts(p: Str, front: seq<Str>, last: Str, accepted: seq<(Str, Entry)>)
    requires !TouchedByOne(p, front + [last], accepted)
    ensures !TouchedByOne(p, front, accepted) && !Touches(p, last, EntriesOf(accepted, last))
  {
    assert last in front + [last];
    assert forall s :: s in front ==> s in front + [last];
  }

  ghost predicate GoodScripts(scripts: seq<Str>, accepted: seq<(Str, Entry)>, hourOf: HourReader) {
    && (forall i, j :: 0 <= i < j < |scripts| ==> scripts[i] != scripts[j])
    && (forall s :: s in scripts ==> ScriptName(s) && GoodEntries(EntriesOf(accepted, s), hourOf))
  }

  lemma GoodScriptsIn(accepted: seq<(Str, Entry)>, hourOf: HourReader)
    requires GoodBatch(accepted, hourOf)
    ensures GoodScripts(KeysOf(accepted), accepted, hourOf)
  {
    KeysOfMembers(accepted);
    forall s | s in KeysOf(accepted) ensures ScriptName(s) && GoodEntries(EntriesOf(accepted, s), hourOf) {
      EntriesOfMembers(accepted, s);
      var e :| (s, e) in accepted;
      forall i | 0 <= i < |EntriesOf(accepted, s)| ensures HourKey(EntriesOf(accepted, s)[i].hourStart, hourOf) {
        assert (s, EntriesOf(accepted, s)[i]) in accepted;
      }
    }
  }

  lemma FrontApart(front: seq<Str>, last: Str, accepted: seq<(Str, Entry)>, hourOf: HourReader)
    requires GoodScripts(front + [last], accepted, hourOf)
    ensures last !in front
    ensures forall p, s :: s in front && Touches(p, s, EntriesOf(accepted, s)) ==>
      !Touches(p, last, EntriesOf(accepted, last))
    ensures !TouchedByOne(ScriptPath(last), front, accepted)
  {
    var scripts := front + [last];
    assert scripts[|front|] == last;
    assert forall i :: 0 <= i < |front| ==> front[i] == scripts[i];
    assert forall s :: s in front ==> s in scripts;
    assert last in scripts;
    forall p, s | s in front && Touches(p, s, EntriesOf(accepted, s))
      ensures !Touches(p, last, EntriesOf(accepted, last))
    {
      TouchesApart(s, last, EntriesOf(accepted, s), EntriesOf(accepted, last), p, hourOf);
    }
    assert Touches(ScriptPath(last), last, EntriesOf(accepted, last));
  }

  lemma LastScript(st: State, root: Root, front: seq<Str>, last: Str, accepted: seq<(Str, Entry)>, io: Weather,
                   hourOf: HourReader)
    ensures EmitScripts(st, root, front + [last], accepted, io, hourOf)
      == match EmitScripts(st, root, front, accepted, io, hourOf)
         case Thrown(s) => Thrown(s)
         case Done(s, r) => EmitScript(s, r, last, EntriesOf(accepted, last), io, hourOf)
  {
    assert (front + [last])[..|front|] == front;
  }

  lemma GoodScriptsParts(front: seq<Str>, last: Str, accepted: seq<(Str, Entry)>, hourOf: HourReader)
    requires GoodScripts(front + [last], accepted, hourOf)
    ensures GoodScripts(front, accepted, hourOf) && ScriptName(last) && GoodEntries(EntriesOf(accepted, last), hourOf)
  {
    var scripts := front + [last];
    assert scripts[|front|] == last && last in scripts;
    assert forall i :: 0 <= i < |front| ==> front[i] == scripts[i];
    assert forall s :: s in front ==> s in scripts;
  }

  ghost predicate SomeReadable(f: Files, io: Weather, scripts: seq<Str>) {
    exists s :: s in scripts && CanRead(f, io, ScriptPath(s))
  }

  lemma SomeReadableSnoc(f: Files, io: Weather, front: seq<Str>, last: Str)
    ensures SomeReadable(f, io, front + [last]) <==> SomeReadable(f, io, front) || CanRead(f, io, ScriptPath(last))
  {
    assert last in front + [last];
    assert forall s :: s in front ==> s in front + [last];
  }

  lemma {:induction false} EmitScriptsEffect(st: State, root: Root, table: map<Str, Row>, scripts: seq<Str>,
                                             accepted: seq<(Str, Entry)>, io: Weather, hourOf: HourReader,
                                             sums: Str -> Summarizer) returns (table': map<Str, Row>)
    requires WritesSucceed(io) && GoodScripts(scripts, accepted, hourOf) && sums == Summarizers()
    requires Tabulates(root.rows, table)
    ensures
      var result := EmitScripts(st, root, scripts, accepted, io, hourOf);
      && result.Done? && Tabulates(result.value.rows, table')
      && result.value.changed == (root.changed || SomeReadable(st.files, io, scripts))
      && ScriptsEffect(st.files, result.state.files, io, scripts, accepted, hourOf, sums, table, table')
    decreases |scripts|
  {
    table' := table;
    if scripts == [] {
    } else {
      var last, front := scripts[|scripts| - 1], scripts[..|scripts| - 1];
      assert scripts == front + [last];
      GoodScriptsParts(front, last, accepted, hourOf);
      var table1 := EmitScriptsEffect(st, root, table, front, accepted, io, hourOf, sums);
      var mid := EmitScripts(st, root, front, accepted, io, hourOf);
      LastScript(st, root, front, last, accepted, io, hourOf);
      SomeReadableSnoc(st.files, io, front, last);
      table' := LastScriptEffect(st.files, mid.state, mid.value, table, table1, front, last, accepted, io, hourOf,
                                 sums);
    }
  }

  lemma ComposeScripts(f: Files, m: Files, g: Files, table: map<Str, Row>, table1: map<Str, Row>, table2: map<Str, Row>,
                       front: seq<Str>, last: Str, accepted: seq<(Str, Entry)>, io: Weather, hourOf: HourReader,
                       sums: Str -> Summarizer)
    requires GoodScripts(front + [last], accepted, hourOf)
    requires ScriptsEffect(f, m, io, front, accepted, hourOf, sums, table, table1)
    requires OneScript(m, g, io, last, EntriesOf(accepted, last), hourOf, sums(last), table1, table2)
    ensures ScriptsEffect(f, g, io, front + [last], accepted, hourOf, sums, table, table2)
    ensures CanRead(m, io, ScriptPath(last)) == CanRead(f, io, ScriptPath(last))
  {
    FrontApart(front, last, accepted, hourOf);
    assert SameAt(f, m, ScriptPath(last));
    ScriptsEffectStep(f, m, g, io, front, last, accepted, hourOf, sums, table, table1, table2);
  }

  lemma LastScriptEffect(f: Files, st: State, root: Root, table: map<Str, Row>, table1: map<Str, Row>, front: seq<Str>,
                         last: Str, accepted: seq<(Str, Entry)>, io: Weather, hourOf: HourReader,
                         sums: Str -> Summarizer)
    returns (table': map<Str, Row>)
    requires WritesSucceed(io) && GoodScripts(front + [last], accepted, hourOf) && sums == Summarizers()
    requires Tabulates(root.rows, table1)
      && ScriptsEffect(f, st.files, io, front, accepted, hourOf, sums, table, table1)
    ensures
      var result := EmitScript(st, root, last, EntriesOf(accepted, last), io, hourOf);
      && result.Done? && Tabulates(result.value.rows, table')
      && result.value.changed == (root.changed || CanRead(f, io, ScriptPath(last)))
      && ScriptsEffect(f, result.state.files, io, front + [last], accepted, hourOf, sums, table, table')
  {
    GoodScriptsParts(front, last, accepted, hourOf);
    var entries, sum := EntriesOf(accepted, last), sums(last);
    assert sum == SummarizerOf(last);
    table' := EmitScriptEffect(st, root, table1, last, entries, io, hourOf, sum);
    ComposeScripts(f, st.files, EmitScript(st, root, last, entries, io, hourOf).state.files, table, table1, table',
                   front, last,
                   accepted, io, hourOf, sums);
  }

  /** The whole batch: every file of the three levels, and nothing else. */
  ghost predicate BatchEffect(f: Files, g: Files, io: Weather, accepted: seq<(Str, Entry)>, hourOf: HourReader,
                              sums: Str -> Summarizer)
  {
    var root, scripts := RootIndexPath(), KeysOf(accepted);
    && (forall s :: s in scripts ==> ScriptEffect(f, g, io, s, EntriesOf(accepted, s), hourOf, sums(s)))
    && (forall p :: p != root && !TouchedByOne(p, scripts, accepted) ==> SameAt(f, g, p))
    && if CanRead(f, io, root) && exists s :: s in scripts && CanRead(f, io, ScriptPath(s)) then
         && Holds(g, root, ById(ListAt(g, root)))
         && forall s :: LookUp(ById(ListAt(g, root)), s) ==
              if s in scripts && CanRead(f, io, ScriptPath(s)) then RootRowOf(g, s)
              else LookUp(ById(ListAt(f, root)), s)
       else SameAt(f, g, root)
  }

  /** From the script files to the root file. */
  lemma RootFileEffect(f: Files, m: Files, g: Files, io: Weather, accepted: seq<(Str, Entry)>, hourOf: HourReader,
                       sums: Str -> Summarizer, stored: map<Str, Row>, list: seq<Row>, table: map<Str, Row>)
    requires forall s, q :: s in KeysOf(accepted) && Touches(q, s, EntriesOf(accepted, s)) ==> q != RootIndexPath()
    requires ScriptsEffect(f, m, io, KeysOf(accepted), accepted, hourOf, sums, stored, table)
    requires Tabulates(list, table) && Descending(list)
    requires CanRead(f, io, RootIndexPath()) ==> stored == ById(ListAt(f, RootIndexPath()))
    requires g
      == if CanRead(f, io, RootIndexPath()) && exists s :: s in KeysOf(accepted) && CanRead(f, io, ScriptPath(s))
                  then m[RootIndexPath() := Index(list)] else m
    ensures BatchEffect(f, g, io, accepted, hourOf, sums)
  {
    var path, scripts := RootIndexPath(), KeysOf(accepted);
    TabulatesById(list, table);
    forall s | s in scripts
      ensures ScriptEffect(f, g, io, s, EntriesOf(accepted, s), hourOf, sums(s)) && RootRowOf(g, s) == RootRowOf(m, s)
    {
      forall q | Touches(q, s, EntriesOf(accepted, s)) ensures SameAt(m, g, q) {}
      ScriptEffectFrame(f, m, f, g, io, s, EntriesOf(accepted, s), hourOf, sums(s));
    }
    assert !TouchedByOne(path, scripts, accepted);
    forall p | p != path && !TouchedByOne(p, scripts, accepted) ensures SameAt(f, g, p) {
      assert SameAt(f, m, p);
    }
  }

  lemma TouchedIsNotRoot(accepted: seq<(Str, Entry)>, hourOf: HourReader)
    requires GoodScripts(KeysOf(accepted), accepted, hourOf)
    ensures forall s, q :: s in KeysOf(accepted) && Touches(q, s, EntriesOf(accepted, s)) ==> q != RootIndexPath()
  {
    forall s, q | s in KeysOf(accepted) && Touches(q, s, EntriesOf(accepted, s)) ensures q != RootIndexPath() {
      TouchesApart(s, s, EntriesOf(accepted, s), EntriesOf(accepted, s), q, hourOf);
    }
  }

  /** The rows a batch starts from. */
  function StoredRows(st: State, io: Weather): seq<Row> {
    match ReadStrict(st, RootIndexPath(), io).value case Some(rows) => rows case None => []
  }

  function StartRoot(st: State, io: Weather): Root { Root(ToMap(StoredRows(st, io)), false) }

  lemma RootRead(st: State, io: Weather)
    ensures ReadStrict(st, RootIndexPath(), io).value.Some? == CanRead(st.files, io, RootIndexPath())
    ensures CanRead(st.files, io, RootIndexPath()) ==> StoredRows(st, io) == ListAt(st.files, RootIndexPath())
    ensures ReadStrict(st, RootIndexPath(), io).state.files == st.files
  {}

  /** The root file is written when it was read and a script changed it. */
  lemma RootWritten(st: State, accepted: seq<(Str, Entry)>, io: Weather, hourOf: HourReader, mid: Outcome<Root>)
    requires WritesSucceed(io) && mid.Done?
    requires mid
      == EmitScripts(ReadStrict(st, RootIndexPath(), io).state, StartRoot(st, io), KeysOf(accepted), accepted, io,
                     hourOf)
    ensures EmitAccepted(st, accepted, io, hourOf).Done?
    ensures EmitAccepted(st, accepted, io, hourOf).state.files
         == if CanRead(st.files, io, RootIndexPath()) && mid.value.changed
            then mid.state.files[RootIndexPath() := Index(SortDesc(mid.value.rows))] else mid.state.files
  {
    RootRead(st, io);
  }

  /** With writes succeeding and well-formed keys, a batch never throws and has exactly this effect. */
  lemma EmitAcceptedEffect(st: State, accepted: seq<(Str, Entry)>, io: Weather, hourOf: HourReader,
                           sums: Str -> Summarizer)
    requires WritesSucceed(io) && GoodBatch(accepted, hourOf) && sums == Summarizers()
    ensures EmitAccepted(st, accepted, io, hourOf).Done?
    ensures BatchEffect(st.files, EmitAccepted(st, accepted, io, hourOf).state.files, io, accepted, hourOf, sums)
  {
    var start, root := ReadStrict(st, RootIndexPath(), io).state, StartRoot(st, io);
    var stored := ById(StoredRows(st, io));
    ToMapTabulates(StoredRows(st, io));
    RootRead(st, io);
    GoodScriptsIn(accepted, hourOf);
    var table := EmitScriptsEffect(start, root, stored, KeysOf(accepted), accepted, io, hourOf, sums);
    var mid := EmitScripts(start, root, KeysOf(accepted), accepted, io, hourOf);
    SortTabulates(mid.value.rows, table);
    TouchedIsNotRoot(accepted, hourOf);
    RootWritten(st, accepted, io, hourOf, mid);
    RootFileEffect(st.files, mid.state.files, EmitAccepted(st, accepted, io, hourOf).state.files, io, accepted, hourOf,
                   sums,
                   stored, SortDesc(mid.value.rows), table);
  }
}
