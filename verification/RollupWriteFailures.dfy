/**
 * Rollup batches in which writes fail too: what one batch leaves in each day and script file, and
 * exactly when a script's row still agrees with the day file below it
 * (packages/cloudflare/src/emit-auxiliary-files.ts:272-315, 544-562).
 */
module RollupWriteFailures {
  import opened Wrappers
  import opened JsStrings
  import opened PathSegments
  import opened RollupPaths
  import opened RollupRows
  import opened RollupEmitter
  import opened RollupRefinement
  import opened RollupEffects
  import opened RollupRuns
  import opened RollupFailures

  // ---------------------------------------------------------------------------
  // One script's days
  // ---------------------------------------------------------------------------

  /** The hours a day file is to hold after these entries. */
  function EditedHours(rows: seq<Row>, s: Str, entries: seq<Entry>, hourOf: HourReader): seq<Row> {
    match ApplyEntries(ToMap(rows), s, entries, hourOf) case Some(hours) => SortDesc(hours) case None => []
  }

  /** They are the stored hours with the entries applied, latest first. */
  lemma EditedTabulates(rows: seq<Row>, s: Str, entries: seq<Entry>, hourOf: HourReader)
    requires ScriptName(s) && GoodEntries(entries, hourOf)
    ensures ApplyEntries(ToMap(rows), s, entries, hourOf).Some?
    ensures Tabulates(EditedHours(rows, s, entries, hourOf), TableApply(ById(rows), s, entries, ChangesOf(hourOf)))
    ensures Descending(EditedHours(rows, s, entries, hourOf))
  {
    ToMapTabulates(rows);
    ApplyEntriesTabulates(ToMap(rows), ById(rows), s, entries, hourOf);
    var hours := ApplyEntries(ToMap(rows), s, entries, hourOf).value;
    SortTabulates(hours, TableApply(ById(rows), s, entries, ChangesOf(hourOf)));
  }

  /** A date's new hours. */
  function NewHours(f: Files, s: Str, d: Str, entries: seq<Entry>, hourOf: HourReader): seq<Row> {
    EditedHours(ListAt(f, DayPath(s, d)), s, DayEntries(entries, d), hourOf)
  }

  /** A date's file: its new hours when it can be read and written, else as it was. */
  ghost predicate DayTurn(f: Files, g: Files, io: Weather, s: Str, d: Str, hours: seq<Row>) {
    var p := DayPath(s, d);
    if CanRead(f, io, p) && io.writeOk(p) then p in g && g[p] == Index(hours) else SameAt(f, g, p)
  }

  /** A date's row: that of its new hours when its file can be read, whether or not it can be written. */
  function RowTurn(f: Files, io: Weather, s: Str, d: Str, hours: seq<Row>, sum: Summarizer, row: Option<Row>)
    : Option<Row>
  {
    if CanRead(f, io, DayPath(s, d)) then sum(d, hours) else row
  }

  /** What a readable day becomes. */
  lemma EmitDayUnfolds(st: State, dayRows: seq<Row>, s: Str, d: Str, entries: seq<Entry>, io: Weather,
                       hourOf: HourReader)
    requires ScriptName(s) && GoodEntries(entries, hourOf)
    requires DayPathOfDate(s, d, hourOf) == Some(DayPath(s, d)) && CanRead(st.files, io, DayPath(s, d))
    ensures
      var result, p := EmitDay(st, dayRows, s, d, entries, io, hourOf), DayPath(s, d);
      var hours := EditedHours(ListAt(st.files, p), s, entries, hourOf);
      && result.Done? && result.value == PutOrDrop(dayRows, d, SummarizerOf(s)(d, hours))
      && result.state.files == if io.writeOk(p) then st.files[p := Index(hours)] else st.files
  {
    EditedTabulates(ListAt(st.files, DayPath(s, d)), s, entries, hourOf);
  }

  lemma EmitDayTurn(st: State, dayRows: seq<Row>, table: map<Str, Row>, s: Str, d: Str, entries: seq<Entry>,
                    io: Weather, hourOf: HourReader, sum: Summarizer, hours: seq<Row>) returns (table': map<Str, Row>)
    requires ScriptName(s) && GoodEntries(entries, hourOf) && sum == SummarizerOf(s)
    requires DayPathOfDate(s, d, hourOf) == Some(DayPath(s, d)) && Tabulates(dayRows, table)
    requires hours == EditedHours(ListAt(st.files, DayPath(s, d)), s, entries, hourOf)
    ensures
      var result := EmitDay(st, dayRows, s, d, entries, io, hourOf);
      && result.Done? && Tabulates(result.value, table')
      && DayTurn(st.files, result.state.files, io, s, d, hours)
      && (forall q :: q != DayPath(s, d) ==> SameAt(st.files, result.state.files, q))
    ensures table' == if CanRead(st.files, io, DayPath(s, d)) then ChangeRow(table, d, sum(d, hours)) else table
  {
    table' := table;
    if CanRead(st.files, io, DayPath(s, d)) {
      EmitDayUnfolds(st, dayRows, s, d, entries, io, hourOf);
      PutOrDropTabulates(dayRows, table, d, sum(d, hours));
      table' := ChangeRow(table, d, sum(d, hours));
    } else {
      EmitDayBlocked(st, dayRows, s, d, entries, io, hourOf);
    }
  }

  /** Every date's step: its file, the script's rows, and nothing else. */
  ghost predicate DaysTurn(f: Files, g: Files, io: Weather, s: Str, dates: seq<Str>, hours: Str -> seq<Row>,
                           sum: Summarizer, table: map<Str, Row>, table': map<Str, Row>)
  {
    && (forall d :: d in dates ==> DayTurn(f, g, io, s, d, hours(d)))
    && (forall d :: LookUp(table', d)
         == if d in dates then RowTurn(f, io, s, d, hours(d), sum, LookUp(table, d)) else LookUp(table, d))
    && (forall p :: (forall d :: d in dates ==> p != DayPath(s, d)) ==> SameAt(f, g, p))
  }

  lemma DaysTurnStep(f: Files, m: Files, g: Files, io: Weather, s: Str, front: seq<Str>, last: Str,
                     hours: Str -> seq<Row>, sum: Summarizer, table: map<Str, Row>, table1: map<Str, Row>,
                     table2: map<Str, Row>)
    requires forall d :: d in front ==> DayPath(s, d) != DayPath(s, last)
    requires DaysTurn(f, m, io, s, front, hours, sum, table, table1) && DayTurn(m, g, io, s, last, hours(last))
    requires forall q :: q != DayPath(s, last) ==> SameAt(m, g, q)
    requires table2
      == if CanRead(m, io, DayPath(s, last)) then ChangeRow(table1, last, sum(last, hours(last))) else table1
    ensures DaysTurn(f, g, io, s, front + [last], hours, sum, table, table2)
  {
    assert SameAt(f, m, DayPath(s, last));
    forall d | d in front ensures DayTurn(f, g, io, s, d, hours(d)) { assert SameAt(m, g, DayPath(s, d)); }
    forall p | forall d :: d in front + [last] ==> p != DayPath(s, d)
      ensures SameAt(f, g, p)
    {
      NoDayPath(p, s, front, last);
      assert SameAt(f, m, p) && SameAt(m, g, p);
    }
  }

  lemma LastDay(st: State, dayRows: seq<Row>, s: Str, front: seq<Str>, last: Str, entries: seq<Entry>, io: Weather,
                hourOf: HourReader)
    ensures EmitDays(st, dayRows, s, front + [last], entries, io, hourOf)
      == match EmitDays(st, dayRows, s, front, entries, io, hourOf)
         case Thrown(m) => Thrown(m)
         case Done(m, rows) => EmitDay(m, rows, s, last, DayEntries(entries, last), io, hourOf)
  {
    assert (front + [last])[..|front|] == front;
  }

  lemma GoodDatesParts(s: Str, front: seq<Str>, last: Str, entries: seq<Entry>, hourOf: HourReader)
    requires ScriptName(s) && GoodDates(s, front + [last], entries, hourOf)
    ensures GoodDates(s, front, entries, hourOf) && GoodEntries(DayEntries(entries, last), hourOf)
    ensures DayPathOfDate(s, last, hourOf) == Some(DayPath(s, last))
    ensures forall d :: d in front ==> DayPath(s, d) != DayPath(s, last)
  {
    var dates := front + [last];
    assert dates[|front|] == last && last in dates;
    assert forall i :: 0 <= i < |front| ==> front[i] == dates[i];
    assert forall d :: d in front ==> d in dates;
    forall d | d in front ensures DayPath(s, d) != DayPath(s, last) { PathsDiffer(s, d, s, last); }
  }

  lemma LastDayTurn(f: Files, mid: State, rows: seq<Row>, s: Str, front: seq<Str>, last: Str, entries: seq<Entry>,
                    io: Weather, hourOf: HourReader, sum: Summarizer, hours: Str -> seq<Row>, table: map<Str, Row>,
                    table1: map<Str, Row>)
    returns (table': map<Str, Row>)
    requires ScriptName(s) && GoodDates(s, front + [last], entries, hourOf) && sum == SummarizerOf(s)
    requires Tabulates(rows, table1) && DaysTurn(f, mid.files, io, s, front, hours, sum, table, table1)
    requires hours(last) == NewHours(f, s, last, entries, hourOf)
    ensures
      var result := EmitDay(mid, rows, s, last, DayEntries(entries, last), io, hourOf);
      && result.Done? && Tabulates(result.value, table')
      && DaysTurn(f, result.state.files, io, s, front + [last], hours, sum, table, table')
  {
    GoodDatesParts(s, front, last, entries, hourOf);
    assert SameAt(f, mid.files, DayPath(s, last));
    table' := EmitDayTurn(mid, rows, table1, s, last, DayEntries(entries, last), io, hourOf, sum, hours(last));
    var end := EmitDay(mid, rows, s, last, DayEntries(entries, last), io, hourOf);
    DaysTurnStep(f, mid.files, end.state.files, io, s, front, last, hours, sum, table, table1, table');
  }

  lemma {:induction false} EmitDaysTurn(st: State, dayRows: seq<Row>, table: map<Str, Row>, s: Str, dates: seq<Str>,
                                        entries: seq<Entry>, io: Weather, hourOf: HourReader, sum: Summarizer,
                                        hours: Str -> seq<Row>)
    returns (table': map<Str, Row>)
    requires ScriptName(s) && GoodDates(s, dates, entries, hourOf) && sum == SummarizerOf(s)
    requires Tabulates(dayRows, table) && forall d :: hours(d) == NewHours(st.files, s, d, entries, hourOf)
    ensures
      var result := EmitDays(st, dayRows, s, dates, entries, io, hourOf);
      && result.Done? && Tabulates(result.value, table')
      && DaysTurn(st.files, result.state.files, io, s, dates, hours, sum, table, table')
    decreases |dates|
  {
    table' := table;
    if dates == [] {
    } else {
      var last, front := dates[|dates| - 1], dates[..|dates| - 1];
      assert dates == front + [last];
      GoodDatesParts(s, front, last, entries, hourOf);
      var table1 := EmitDaysTurn(st, dayRows, table, s, front, entries, io, hourOf, sum, hours);
      var mid := EmitDays(st, dayRows, s, front, entries, io, hourOf);
      LastDay(st, dayRows, s, front, last, entries, io, hourOf);
      table' := LastDayTurn(st.files, mid.state, mid.value, s, front, last, entries, io, hourOf, sum, hours, table,
                            table1);
    }
  }

  // ---------------------------------------------------------------------------
  // One script
  // ---------------------------------------------------------------------------

  function HoursIn(f: Files, s: Str, entries: seq<Entry>, hourOf: HourReader): Str -> seq<Row> {
    d => NewHours(f, s, d, entries, hourOf)
  }

  /** A script's turn, when its own file can be read: each date's file, and its own when it can be written. */
  ghost predicate ScriptTurn(f: Files, g: Files, io: Weather, s: Str, dates: seq<Str>, hours: Str -> seq<Row>,
                             sum: Summarizer)
  {
    var p := ScriptPath(s);
    if CanRead(f, io, p) then
      && (forall d :: d in dates ==> DayTurn(f, g, io, s, d, hours(d)))
      && if io.writeOk(p) then
           && p in g && g[p].Index?
           && forall d :: LookUp(ById(ListAt(g, p)), d)
                == if d in dates then RowTurn(f, io, s, d, hours(d), sum, LookUp(ById(ListAt(f, p)), d))
                   else LookUp(ById(ListAt(f, p)), d)
         else SameAt(f, g, p)
    else SameAt(f, g, p) && forall d :: d in dates ==> SameAt(f, g, DayPath(s, d))
  }

  lemma ScriptFileTurn(f: Files, m: Files, g: Files, io: Weather, s: Str, dates: seq<Str>, hours: Str -> seq<Row>,
                       sum: Summarizer, list: seq<Row>, table': map<Str, Row>)
    requires CanRead(f, io, ScriptPath(s)) && forall d :: d in dates ==> DayPath(s, d) != ScriptPath(s)
    requires DaysTurn(f, m, io, s, dates, hours, sum, ById(ListAt(f, ScriptPath(s))), table') && Tabulates(list, table')
    requires g == if io.writeOk(ScriptPath(s)) then m[ScriptPath(s) := Index(list)] else m
    ensures ScriptTurn(f, g, io, s, dates, hours, sum)
    ensures forall q :: q != ScriptPath(s) && (forall d :: d in dates ==> q != DayPath(s, d)) ==> SameAt(f, g, q)
  {
    TabulatesById(list, table');
    forall d | d in dates ensures DayTurn(f, g, io, s, d, hours(d)) { assert SameAt(m, g, DayPath(s, d)); }
    assert SameAt(f, m, ScriptPath(s));
    forall q | q != ScriptPath(s) && forall d :: d in dates ==> q != DayPath(s, d)
      ensures SameAt(f, g, q)
    {
      assert SameAt(f, m, q) && SameAt(m, g, q);
    }
  }

  /** What a readable script becomes, in terms of its day rows. */
  lemma EmitScriptUnfolds(st: State, root: Root, s: Str, entries: seq<Entry>, io: Weather, hourOf: HourReader)
    requires ScriptName(s) && CanRead(st.files, io, ScriptPath(s))
    requires
      var start := ReadStrict(st, ScriptPath(s), io).state;
      EmitDays(start, ToMap(ListAt(st.files, ScriptPath(s))), s, DatesIn(entries), entries, io, hourOf).Done?
    ensures
      var start := ReadStrict(st, ScriptPath(s), io).state;
      var days := EmitDays(start, ToMap(ListAt(st.files, ScriptPath(s))), s, DatesIn(entries), entries, io, hourOf);
      var result := EmitScript(st, root, s, entries, io, hourOf);
      && start.files == st.files && result.Done?
      && result.state.files
         == if io.writeOk(ScriptPath(s)) then days.state.files[ScriptPath(s) := Index(SortDesc(days.value))]
            else days.state.files
  {
    SegmentFacts(s, s);
  }

  lemma EmitScriptTurn(st: State, root: Root, s: Str, entries: seq<Entry>, io: Weather, hourOf: HourReader,
                       sum: Summarizer)
    requires ScriptName(s) && GoodEntries(entries, hourOf) && sum == SummarizerOf(s)
    ensures
      var result := EmitScript(st, root, s, entries, io, hourOf);
      && result.Done?
      && ScriptTurn(st.files, result.state.files, io, s, DatesIn(entries), HoursIn(st.files, s, entries, hourOf), sum)
      && forall q :: !Touches(q, s, entries) ==> SameAt(st.files, result.state.files, q)
  {
    var f, p := st.files, ScriptPath(s);
    if !CanRead(f, io, p) {
      EmitScriptBlocked(st, root, s, entries, io, hourOf);
    } else {
      GoodDatesIn(s, entries, hourOf);
      ToMapTabulates(ListAt(f, p));
      var start, hours := ReadStrict(st, p, io).state, HoursIn(f, s, entries, hourOf);
      var table := EmitDaysTurn(start, ToMap(ListAt(f, p)), ById(ListAt(f, p)), s, DatesIn(entries), entries, io,
                                hourOf, sum, hours);
      var days := EmitDays(start, ToMap(ListAt(f, p)), s, DatesIn(entries), entries, io, hourOf);
      EmitScriptUnfolds(st, root, s, entries, io, hourOf);
      SortTabulates(days.value, table);
      forall d | d in DatesIn(entries) ensures DayPath(s, d) != p { PathsDiffer(s, d, s, d); }
      ScriptFileTurn(f, days.state.files, EmitScript(st, root, s, entries, io, hourOf).state.files, io, s,
                     DatesIn(entries), hours, sum, SortDesc(days.value), table);
    }
  }

  // ---------------------------------------------------------------------------
  // The batch
  // ---------------------------------------------------------------------------

  /** A script's turn in a batch. */
  ghost predicate TurnIn(f: Files, g: Files, io: Weather, s: Str, accepted: seq<(Str, Entry)>, hourOf: HourReader,
                         sum: Summarizer)
  {
    var entries := EntriesOf(accepted, s);
    ScriptTurn(f, g, io, s, DatesIn(entries), HoursIn(f, s, entries, hourOf), sum)
  }

  /** A script's turn depends only on the files it touches. */
  lemma TurnFrame(f: Files, m: Files, f': Files, g: Files, io: Weather, s: Str, accepted: seq<(Str, Entry)>,
                  hourOf: HourReader, sum: Summarizer)
    requires TurnIn(f, m, io, s, accepted, hourOf, sum)
    requires forall q :: Touches(q, s, EntriesOf(accepted, s)) ==> SameAt(f, f', q) && SameAt(m, g, q)
    ensures TurnIn(f', g, io, s, accepted, hourOf, sum)
  {
    var entries := EntriesOf(accepted, s);
    var dates, hours, hours' := DatesIn(entries), HoursIn(f, s, entries, hourOf), HoursIn(f', s, entries, hourOf);
    assert Touches(ScriptPath(s), s, entries);
    assert SameAt(f, f', ScriptPath(s)) && SameAt(m, g, ScriptPath(s));
    forall d | d in dates
      ensures SameAt(f, f', DayPath(s, d)) && SameAt(m, g, DayPath(s, d)) && hours(d) == hours'(d)
    {
      assert Touches(DayPath(s, d), s, entries);
    }
    TurnSame(f, m, f', g, io, s, dates, hours, hours', sum);
  }

  lemma DaySame(f: Files, m: Files, f': Files, g: Files, io: Weather, s: Str, d: Str, hours: seq<Row>)
    requires SameAt(f, f', DayPath(s, d)) && SameAt(m, g, DayPath(s, d))
    ensures DayTurn(f, m, io, s, d, hours) <==> DayTurn(f', g, io, s, d, hours)
    ensures forall sum, row :: RowTurn(f, io, s, d, hours, sum, row) == RowTurn(f', io, s, d, hours, sum, row)
  {}

  lemma TurnSame(f: Files, m: Files, f': Files, g: Files, io: Weather, s: Str, dates: seq<Str>, hours: Str -> seq<Row>,
                 hours': Str -> seq<Row>, sum: Summarizer)
    requires ScriptTurn(f, m, io, s, dates, hours, sum)
    requires SameAt(f, f', ScriptPath(s)) && SameAt(m, g, ScriptPath(s))
    requires forall d :: d in dates ==>
      SameAt(f, f', DayPath(s, d)) && SameAt(m, g, DayPath(s, d)) && hours(d) == hours'(d)
    ensures ScriptTurn(f', g, io, s, dates, hours', sum)
  {
    var row := (d: Str) => LookUp(ById(ListAt(f, ScriptPath(s))), d);
    forall d | d in dates
      ensures DayTurn(f, m, io, s, d, hours(d)) <==> DayTurn(f', g, io, s, d, hours'(d))
      ensures RowTurn(f, io, s, d, hours(d), sum, row(d)) == RowTurn(f', io, s, d, hours'(d), sum, row(d))
      ensures SameAt(f, m, DayPath(s, d)) <==> SameAt(f', g, DayPath(s, d))
    {
      DaySame(f, m, f', g, io, s, d, hours(d));
    }
    if CanRead(f, io, ScriptPath(s)) && io.writeOk(ScriptPath(s)) {
      assert ListAt(f', ScriptPath(s)) == ListAt(f, ScriptPath(s));
      assert ListAt(g, ScriptPath(s)) == ListAt(m, ScriptPath(s));
    }
  }

  /** The turns of several scripts, and nothing else. */
  ghost predicate Turns(f: Files, g: Files, io: Weather, scripts: seq<Str>, accepted: seq<(Str, Entry)>,
                        hourOf: HourReader, sums: Str -> Summarizer)
  {
    && (forall s :: s in scripts ==> TurnIn(f, g, io, s, accepted, hourOf, sums(s)))
    && (forall p :: !TouchedByOne(p, scripts, accepted) ==> SameAt(f, g, p))
  }

  lemma TurnsStep(f: Files, m: Files, g: Files, io: Weather, front: seq<Str>, last: Str, accepted: seq<(Str, Entry)>,
                  hourOf: HourReader, sums: Str -> Summarizer)
    requires Turns(f, m, io, front, accepted, hourOf, sums) && TurnIn(m, g, io, last, accepted, hourOf, sums(last))
    requires forall q :: !Touches(q, last, EntriesOf(accepted, last)) ==> SameAt(m, g, q)
    requires forall p, s :: s in front && Touches(p, s, EntriesOf(accepted, s)) ==>
      !Touches(p, last, EntriesOf(accepted, last))
    ensures Turns(f, g, io, front + [last], accepted, hourOf, sums)
  {
    forall q | Touches(q, last, EntriesOf(accepted, last)) ensures SameAt(f, m, q) {
      assert !TouchedByOne(q, front, accepted);
    }
    TurnFrame(m, g, f, g, io, last, accepted, hourOf, sums(last));
    forall s | s in front ensures TurnIn(f, g, io, s, accepted, hourOf, sums(s)) {
      forall q | Touches(q, s, EntriesOf(accepted, s)) ensures SameAt(m, g, q) {}
      TurnFrame(f, m, f, g, io, s, accepted, hourOf, sums(s));
    }
    forall p | !TouchedByOne(p, front + [last], accepted) ensures SameAt(f, g, p) {
      UntouchedParts(p, front, last, accepted);
      assert SameAt(f, m, p) && SameAt(m, g, p);
    }
  }

  lemma {:induction false} EmitScriptsTurns(st: State, root: Root, scripts: seq<Str>, accepted: seq<(Str, Entry)>,
                                            io: Weather, hourOf: HourReader, sums: Str -> Summarizer)
    requires GoodScripts(scripts, accepted, hourOf) && sums == Summarizers()
    ensures
      var result := EmitScripts(st, root, scripts, accepted, io, hourOf);
      result.Done? && Turns(st.files, result.state.files, io, scripts, accepted, hourOf, sums)
    decreases |scripts|
  {
    if scripts == [] {
    } else {
      var last, front := scripts[|scripts| - 1], scripts[..|scripts| - 1];
      assert scripts == front + [last];
      GoodScriptsParts(front, last, accepted, hourOf);
      EmitScriptsTurns(st, root, front, accepted, io, hourOf, sums);
      var mid := EmitScripts(st, root, front, accepted, io, hourOf);
      LastScript(st, root, front, last, accepted, io, hourOf);
      EmitScriptTurn(mid.state, mid.value, last, EntriesOf(accepted, last), io, hourOf, sums(last));
      var end := EmitScript(mid.state, mid.value, last, EntriesOf(accepted, last), io, hourOf);
      FrontApart(front, last, accepted, hourOf);
      TurnsStep(st.files, mid.state.files, end.state.files, io, front, last, accepted, hourOf, sums);
    }
  }

  lemma EmitAcceptedTurns(st: State, accepted: seq<(Str, Entry)>, io: Weather, hourOf: HourReader,
                          sums: Str -> Summarizer) returns (mid: Files)
    requires GoodBatch(accepted, hourOf) && sums == Summarizers()
    ensures Turns(st.files, mid, io, KeysOf(accepted), accepted, hourOf, sums)
    ensures forall p :: p != RootIndexPath() ==> SameAt(mid, EmitAccepted(st, accepted, io, hourOf).state.files, p)
  {
    var start, root := ReadStrict(st, RootIndexPath(), io).state, StartRoot(st, io);
    RootRead(st, io);
    GoodScriptsIn(accepted, hourOf);
    EmitScriptsTurns(start, root, KeysOf(accepted), accepted, io, hourOf, sums);
    RootWrittenLast(st, accepted, io, hourOf);
    mid := EmitScripts(start, root, KeysOf(accepted), accepted, io, hourOf).state.files;
  }

  /** After the scripts' turns at most the root file is written. */
  lemma RootWrittenLast(st: State, accepted: seq<(Str, Entry)>, io: Weather, hourOf: HourReader)
    requires
      var start := ReadStrict(st, RootIndexPath(), io).state;
      EmitScripts(start, StartRoot(st, io), KeysOf(accepted), accepted, io, hourOf).Done?
    ensures
      var start := ReadStrict(st, RootIndexPath(), io).state;
      var mid := EmitScripts(start, StartRoot(st, io), KeysOf(accepted), accepted, io, hourOf).state.files;
      forall p :: p != RootIndexPath() ==> SameAt(mid, EmitAccepted(st, accepted, io, hourOf).state.files, p)
  {}

  /**
   * Whatever reads and writes fail, a batch gives each of its scripts its turn and touches no other day
   * or script file.
   */
  lemma BatchTurns(f: Files, records: seq<Record>, io: Weather, hourOf: HourReader, sums: Str -> Summarizer)
    returns (mid: Files)
    requires io.canRead && GoodBatch(AcceptedIn(records, hourOf), hourOf) && sums == Summarizers()
    ensures Turns(f, mid, io, KeysOf(AcceptedIn(records, hourOf)), AcceptedIn(records, hourOf), hourOf, sums)
    ensures forall p :: p != RootIndexPath() ==> SameAt(mid, Batch(f, records, io, hourOf), p)
  {
    var st, accepted := State(f, 0, [], []), AcceptedIn(records, hourOf);
    if accepted == [] {
      KeysOfEmpty(accepted);
      mid := f;
    } else {
      mid := EmitAcceptedTurns(st.(errors := SkipErrors(records, LocatorOf(hourOf))), accepted, io, hourOf, sums);
      assert st.errors + SkipErrors(records, LocatorOf(hourOf)) == SkipErrors(records, LocatorOf(hourOf));
    }
  }

  // ---------------------------------------------------------------------------
  // When rows and files agree
  // ---------------------------------------------------------------------------

  /**
   * The batch tears the row from the day file: both files can be read, just one of them can be
   * written, and the date's new hours have another summary than the stored ones.
   */
  ghost predicate Tears(f: Files, accepted: seq<(Str, Entry)>, io: Weather, s: Str, d: Str, hourOf: HourReader,
                        sum: Summarizer)
  {
    && Addresses(accepted, s, d) && CanRead(f, io, ScriptPath(s)) && CanRead(f, io, DayPath(s, d))
    && io.writeOk(DayPath(s, d)) != io.writeOk(ScriptPath(s))
    && sum(d, NewHours(f, s, d, EntriesOf(accepted, s), hourOf)) != sum(d, ListAt(f, DayPath(s, d)))
  }

  lemma TurnAgrees(f: Files, g: Files, io: Weather, s: Str, d: Str, dates: seq<Str>, hours: Str -> seq<Row>,
                   sum: Summarizer)
    requires ScriptTurn(f, g, io, s, dates, hours, sum) && d in dates && Agrees(f, s, d, sum)
    ensures Agrees(g, s, d, sum)
      <==> !(CanRead(f, io, ScriptPath(s)) && CanRead(f, io, DayPath(s, d))
             && io.writeOk(DayPath(s, d)) != io.writeOk(ScriptPath(s))
             && sum(d, hours(d)) != sum(d, ListAt(f, DayPath(s, d))))
  {
    if CanRead(f, io, ScriptPath(s)) { assert DayTurn(f, g, io, s, d, hours(d)); }
  }

  lemma UnaddressedAgrees(f: Files, mid: Files, accepted: seq<(Str, Entry)>, io: Weather, hourOf: HourReader,
                          sums: Str -> Summarizer, s: Str, d: Str)
    requires GoodBatch(accepted, hourOf) && Turns(f, mid, io, KeysOf(accepted), accepted, hourOf, sums)
    requires ScriptName(s) && Plain(d) && !Addresses(accepted, s, d) && Agrees(f, s, d, sums(s))
    ensures Agrees(mid, s, d, sums(s))
  {
    UnaddressedUntouched(accepted, s, d, hourOf);
    assert SameAt(f, mid, DayPath(s, d));
    if s !in KeysOf(accepted) {
      assert SameAt(f, mid, ScriptPath(s));
    } else {
      assert TurnIn(f, mid, io, s, accepted, hourOf, sums(s));
    }
  }

  lemma AgreesSame(f: Files, g: Files, s: Str, d: Str, sum: Summarizer)
    requires SameAt(f, g, ScriptPath(s)) && SameAt(f, g, DayPath(s, d))
    ensures Agrees(f, s, d, sum) <==> Agrees(g, s, d, sum)
  {}

  /**
   * Whatever reads and writes of a batch fail, a script's row that agreed with its day file still
   * does, exactly when the batch does not tear them apart.
   */
  lemma AgreesUnlessTorn(f: Files, records: seq<Record>, io: Weather, hourOf: HourReader, s: Str, d: Str)
    requires io.canRead && GoodBatch(AcceptedIn(records, hourOf), hourOf) && ScriptName(s) && Plain(d)
    requires Agrees(f, s, d, SummarizerOf(s))
    ensures Agrees(Batch(f, records, io, hourOf), s, d, SummarizerOf(s))
      <==> !Tears(f, AcceptedIn(records, hourOf), io, s, d, hourOf, SummarizerOf(s))
  {
    var accepted, sums := AcceptedIn(records, hourOf), Summarizers();
    var mid := BatchTurns(f, records, io, hourOf, sums);
    assert sums(s) == SummarizerOf(s);
    PathsDiffer(s, d, s, d);
    AgreesSame(mid, Batch(f, records, io, hourOf), s, d, SummarizerOf(s));
    if Addresses(accepted, s, d) {
      assert TurnIn(f, mid, io, s, accepted, hourOf, sums(s));
      var entries := EntriesOf(accepted, s);
      TurnAgrees(f, mid, io, s, d, DatesIn(entries), HoursIn(f, s, entries, hourOf), SummarizerOf(s));
    } else {
      UnaddressedAgrees(f, mid, accepted, io, hourOf, sums, s, d);
    }
  }

  /** A batch keeps every script row derived from its day file exactly when it tears none. */
  lemma DerivedUnlessTorn(f: Files, records: seq<Record>, io: Weather, hourOf: HourReader)
    requires io.canRead && GoodBatch(AcceptedIn(records, hourOf), hourOf) && Derived(f, Summarizers())
    ensures Derived(Batch(f, records, io, hourOf), Summarizers())
      <==> forall s, d :: ScriptName(s) && Plain(d) ==>
        !Tears(f, AcceptedIn(records, hourOf), io, s, d, hourOf, SummarizerOf(s))
  {
    forall s, d | ScriptName(s) && Plain(d)
      ensures Agrees(Batch(f, records, io, hourOf), s, d, SummarizerOf(s))
        <==> !Tears(f, AcceptedIn(records, hourOf), io, s, d, hourOf, SummarizerOf(s))
    {
      assert Agrees(f, s, d, Summarizers()(s));
      AgreesUnlessTorn(f, records, io, hourOf, s, d);
    }
    assert forall s :: Summarizers()(s) == SummarizerOf(s);
  }

  /** An input: an upsert into an empty store, with the day file's write failing and nothing else. */
  lemma FirstDayWriteFails(record: Record, a: Str, h: Str, io: Weather, hourOf: HourReader)
    requires io.canRead && (forall p :: io.readOk(p)) && forall p :: io.writeOk(p) <==> p != DayPath(a, DatePart(h))
    requires ScriptName(a) && HourKey(h, hourOf) && Locate(record, hourOf) == Some((a, h)) && !record.deleted
    ensures !Agrees(Batch(map[], [record], io, hourOf), a, DatePart(h), SummarizerOf(a))
  {
    var accepted := [(a, Entry(h, record))];
    HourKeyFacts(h, a, record, hourOf);
    OneAccepted(record, a, h, hourOf);
    EmptyStoreDerived(Summarizers());
    assert Agrees(map[], a, DatePart(h), Summarizers()(a));
    FirstHourTears(accepted, record, a, h, io, hourOf);
    AgreesUnlessTorn(map[], [record], io, hourOf, a, DatePart(h));
  }

  lemma FirstHourTears(accepted: seq<(Str, Entry)>, record: Record, a: Str, h: Str, io: Weather, hourOf: HourReader)
    requires (forall p :: io.readOk(p)) && forall p :: io.writeOk(p) <==> p != DayPath(a, DatePart(h))
    requires ScriptName(a) && HourKey(h, hourOf) && !record.deleted && KeysOf(accepted) == [a]
    requires EntriesOf(accepted, a) == [Entry(h, record)]
    ensures Tears(map[], accepted, io, a, DatePart(h), hourOf, SummarizerOf(a))
  {
    HourKeyFacts(h, a, record, hourOf);
    PathsDiffer(a, DatePart(h), a, DatePart(h));
    OneDate(Entry(h, record));
    FirstHour(Entry(h, record), a, hourOf);
  }

  /** One upsert on no hours gives a row. */
  lemma FirstHour(entry: Entry, a: Str, hourOf: HourReader)
    requires ScriptName(a) && HourKey(entry.hourStart, hourOf) && !entry.record.deleted
    ensures EditedHours([], a, [entry], hourOf) != []
  {
    HourKeyFacts(entry.hourStart, a, entry.record, hourOf);
    EditedTabulates([], a, [entry], hourOf);
    var table := TableApply(ById([]), a, [entry], ChangesOf(hourOf));
    assert [entry][..0] == [] && entry.hourStart in table;
    EmptyTable(EditedHours([], a, [entry], hourOf), table);
  }

  lemma OneAccepted(record: Record, a: Str, h: Str, hourOf: HourReader)
    requires Locate(record, hourOf) == Some((a, h))
    ensures AcceptedIn([record], hourOf) == [(a, Entry(h, record))]
    ensures KeysOf([(a, Entry(h, record))]) == [a] && EntriesOf([(a, Entry(h, record))], a) == [Entry(h, record)]
  {
    var pair := (a, Entry(h, record));
    AcceptedSnoc([record], 0, LocatorOf(hourOf));
    assert [record][..1] == [record] && [record][..0] == [];
    KeysOfEmpty([]);
    KeysOfSnoc([], pair);
    assert [] + [pair] == [pair] && EntriesOf([], a) == [];
  }
}
