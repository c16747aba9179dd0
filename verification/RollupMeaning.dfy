/**
 * What rebuilt rollup indexes say, in terms of the live hours alone: totals that do not depend on
 * any order, the worst severity, the latest hour of a day and the newest day of a script.
 */
module RollupMeaning {
  import opened Wrappers
  import opened JsStrings
  import opened RollupPaths
  import opened RollupRows
  import opened RollupEmitter
  import opened RollupRefinement
  import opened RollupEffects
  import opened RollupRuns

  // ---------------------------------------------------------------------------
  // Totals over a table
  // ---------------------------------------------------------------------------

  /** The sum of a field over the rows of a table, in no particular order. */
  ghost function Total(table: map<Str, Row>, field: Row -> real): real
    decreases |table|
  {
    if table == map[] then 0.0
    else
      var k :| k in table;
      RemoveSmaller(table, k);
      field(table[k]) + Total(table - {k}, field)
  }

  lemma RemoveSmaller(table: map<Str, Row>, k: Str)
    requires k in table
    ensures |table - {k}| == |table| - 1
  {
    assert (table - {k}).Keys == table.Keys - {k};
  }

  lemma RemoveTwo(table: map<Str, Row>, j: Str, k: Str)
    requires j in table && k in table && j != k
    ensures table - {j} - {k} == table - {k} - {j}
    ensures k in table - {j} && (table - {j})[k] == table[k] && j in table - {k} && (table - {k})[j] == table[j]
  {}

  /** Whichever row is taken first, the total is the same. */
  lemma {:induction false} TotalWithout(table: map<Str, Row>, k: Str, field: Row -> real)
    requires k in table
    ensures Total(table, field) == field(table[k]) + Total(table - {k}, field)
    decreases |table|
  {
    var j :| j in table && Total(table, field) == field(table[j]) + Total(table - {j}, field);
    if j != k {
      RemoveSmaller(table, j);
      RemoveSmaller(table, k);
      RemoveTwo(table, j, k);
      TotalWithout(table - {j}, k, field);
      TotalWithout(table - {k}, j, field);
    }
  }

  /** Summing up a list of rows is summing up the table it lists. */
  lemma {:induction false} SumIsTotal(rows: seq<Row>, table: map<Str, Row>, field: Row -> real)
    requires Tabulates(rows, table)
    ensures Sum(rows, field) == Total(table, field)
  {
    EmptyTable(rows, table);
    if rows == [] {
    } else {
      assert rows[0] in rows;
      DropFirst(rows, table);
      SumIsTotal(rows[1..], table - {rows[0].id}, field);
      TotalWithout(table, rows[0].id, field);
    }
  }

  lemma {:induction false} LengthIsCount(rows: seq<Row>, table: map<Str, Row>)
    requires Tabulates(rows, table)
    ensures |rows| == |table|
  {
    EmptyTable(rows, table);
    if rows == [] {
    } else {
      assert rows[0] in rows;
      DropFirst(rows, table);
      RemoveSmaller(table, rows[0].id);
      LengthIsCount(rows[1..], table - {rows[0].id});
    }
  }

  // ---------------------------------------------------------------------------
  // Day rows
  // ---------------------------------------------------------------------------

  /** The greatest of some texts. */
  ghost predicate Greatest(texts: set<Str>, text: Str) {
    text in texts && forall t :: t in texts ==> t == text || Less(t, text)
  }

  /** The five severities from the mildest to the worst; any other label is milder than all of them. */
  lemma SeveritiesInOrder(other: Str)
    ensures Rank(U("info")) < Rank(U("low")) < Rank(U("medium")) < Rank(U("high")) < Rank(U("critical"))
    ensures other !in [U("info"), U("low"), U("medium"), U("high"), U("critical")] ==> Rank(other) < Rank(U("info"))
  {
    var five := [U("info"), U("low"), U("medium"), U("high"), U("critical")];
    assert U("info")[0] == 105 && U("low")[0] == 108 && U("medium")[0] == 109 && U("high")[0] == 104
      && U("critical")[0] == 99;
    assert five[0] in five && five[1] in five && five[2] in five && five[3] in five && five[4] in five;
  }

  /** As bad as the worst hour that names a severity, and the severity of such an hour if there is one. */
  ghost predicate IsWorst(severity: Option<Str>, hours: map<Str, Row>) {
    && (forall h :: h in hours && ReadString(hours[h].severity).Some? ==>
         severity.Some? && Rank(ReadString(hours[h].severity).value) <= Rank(severity.value))
    && ((exists h :: h in hours && ReadString(hours[h].severity).Some?) ==>
         exists h :: h in hours && severity == ReadString(hours[h].severity))
  }

  /**
   * A day row is the row of the day's latest hour under the date's name, but for the severity, which
   * is the day's worst, and with the day's totals added.
   */
  ghost predicate SumsUp(row: Row, s: Str, d: Str, hours: map<Str, Row>) {
    && row.day.Some? && Greatest(hours.Keys, row.updated)
    && row == hours[row.updated].(id := d, title := s + U(" ") + d, severity := row.severity, day := row.day)
    && row.day.value.latestHourStart == row.updated
    && row.day.value.dayIndexPath == DayPath(s, d) && row.day.value.hours == |hours|
    && row.day.value.events == Total(hours, Events) && row.day.value.exceptions == Total(hours, Exceptions)
    && row.day.value.failures == Total(hours, Failures) && row.day.value.status5xx == Total(hours, Status5xx)
    && IsWorst(row.severity, hours)
  }

  lemma WorstOfTable(rows: seq<Row>, hours: map<Str, Row>, severity: Option<Str>)
    requires Tabulates(rows, hours)
    requires forall r :: r in rows && ReadString(r.severity).Some? ==>
      severity.Some? && Rank(ReadString(r.severity).value) <= Rank(severity.value)
    requires (exists r :: r in rows && ReadString(r.severity).Some?) ==>
      exists r :: r in rows && severity == ReadString(r.severity)
    ensures IsWorst(severity, hours)
  {
    if h :| h in hours && ReadString(hours[h].severity).Some? {
      assert hours[h] in rows;
      var r :| r in rows && severity == ReadString(r.severity);
      assert r.id in hours && hours[r.id] == r;
    }
  }

  lemma FirstIsGreatest(rows: seq<Row>, table: map<Str, Row>)
    requires Tabulates(rows, table) && StrictlyDescending(rows) && rows != []
    requires forall h :: h in table ==> table[h].updated == h
    ensures Greatest(table.Keys, rows[0].updated) && table[rows[0].updated] == rows[0]
  {
    assert rows[0] in rows;
    forall t | t in table.Keys ensures t == rows[0].updated || Less(t, rows[0].updated) {
      var i :| 0 <= i < |rows| && rows[i] == table[t];
    }
  }

  lemma DayRowSumsUp(rows: seq<Row>, hours: map<Str, Row>, s: Str, d: Str)
    requires Tabulates(rows, hours) && StrictlyDescending(rows) && rows != []
    requires forall h :: h in hours ==> hours[h].updated == hours[h].id == h
    ensures SumsUp(BuildDayRow(s, d, DayPath(s, d), rows).value, s, d, hours)
  {
    FirstIsGreatest(rows, hours);
    LengthIsCount(rows, hours);
    SumIsTotal(rows, hours, Events);
    SumIsTotal(rows, hours, Exceptions);
    SumIsTotal(rows, hours, Failures);
    SumIsTotal(rows, hours, Status5xx);
    DaySeverity(s, d, DayPath(s, d), rows);
    WorstOfTable(rows, hours, BuildDayRow(s, d, DayPath(s, d), rows).value.severity);
  }

  lemma ScriptRow(files: Files, live: Live, s: Str, d: Str, sum: Summarizer, hourOf: HourReader)
    requires LiveKeys(live, hourOf) && ScriptName(s) && ScriptRebuilt(files, live, s, sum)
    ensures d in ById(ListAt(files, ScriptPath(s)))
      <==> d in DatesOf(live, s) && sum(d, ListAt(files, DayPath(s, d))).Some?
    ensures d in ById(ListAt(files, ScriptPath(s))) ==>
      sum(d, ListAt(files, DayPath(s, d))) == Some(ById(ListAt(files, ScriptPath(s)))[d])
  {
    TabulatesById(ListAt(files, ScriptPath(s)), ScriptTable(files, live, s, sum));
  }

  /**
   * In a rebuilt store a script's file has a row for a date exactly when the date has a live hour,
   * and that row sums up exactly the date's live hours.
   */
  lemma ScriptFileSays(files: Files, live: Live, s: Str, d: Str, hourOf: HourReader)
    requires Rebuilt(files, live, Summarizers()) && LiveKeys(live, hourOf) && ScriptName(s)
    ensures d in ById(ListAt(files, ScriptPath(s))) <==> DayTable(live, s, d) != map[]
    ensures DayTable(live, s, d) != map[] ==> SumsUp(ById(ListAt(files, ScriptPath(s)))[d], s, d, DayTable(live, s, d))
  {
    var hours := DayTable(live, s, d);
    LiveDates(live, s, d, hourOf);
    assert ScriptRebuilt(files, live, s, Summarizers()(s));
    ScriptRow(files, live, s, d, SummarizerOf(s), hourOf);
    if d in DatesOf(live, s) {
      assert DayRebuilt(files, live, s, d);
      EmptyTable(ListAt(files, DayPath(s, d)), hours);
      DayTableRows(live, s, d, hourOf);
      DayRowSumsUp(ListAt(files, DayPath(s, d)), hours, s, d);
    }
  }

  // ---------------------------------------------------------------------------
  // Root rows
  // ---------------------------------------------------------------------------

  /** A root row is the row of the script's newest date, under the script's name. */
  ghost predicate Leads(row: Row, s: Str, dates: set<Str>, days: map<Str, Row>) {
    && row.root.Some? && Greatest(dates, row.root.value.latestDate) && row.root.value.latestDate in days
    && row == days[row.root.value.latestDate].(id := s, title := s,
                                               root := Some(RootLink(ScriptPath(s), row.root.value.latestDate)))
  }

  lemma NewestDay(days: seq<Row>, table: map<Str, Row>)
    requires Tabulates(days, table) && StrictlyDescending(days) && days != []
    requires forall d :: d in table ==> DatePart(table[d].updated) == d
    ensures Greatest(table.Keys, days[0].id) && table[days[0].id] == days[0]
  {
    assert days[0] in days;
    forall d | d in table.Keys ensures d == days[0].id || Less(d, days[0].id) {
      var i :| 0 <= i < |days| && days[i] == table[d];
      if i > 0 {
        var a, b := days[i].updated, days[0].updated;
        assert DatePart(a) == d && DatePart(b) == days[0].id && d != days[0].id;
        CutKeepsOrder(a, b, 10);
      }
    }
  }

  function Cut(s: Str, n: nat): Str { if |s| < n then s else s[..n] }

  lemma {:induction false} CutKeepsOrder(a: Str, b: Str, n: nat)
    requires Less(a, b)
    ensures Cut(a, n) == Cut(b, n) || Less(Cut(a, n), Cut(b, n))
  {
    if a != [] && n > 0 && a[0] == b[0] {
      CutKeepsOrder(a[1..], b[1..], n - 1);
      assert Cut(a, n) == [a[0]] + Cut(a[1..], n - 1) && Cut(b, n) == [b[0]] + Cut(b[1..], n - 1);
    }
  }

  /**
   * In a rebuilt store the root file has a row for a script exactly when the script has a live
   * hour, and that row is the row of its newest live date.
   */
  lemma RootFileSays(files: Files, live: Live, s: Str, hourOf: HourReader)
    requires Rebuilt(files, live, Summarizers()) && LiveKeys(live, hourOf) && ScriptName(s)
    ensures s in ById(ListAt(files, RootIndexPath())) <==> s in ScriptsOf(live)
    ensures s in ScriptsOf(live) ==>
      Leads(ById(ListAt(files, RootIndexPath()))[s], s, DatesOf(live, s), ById(ListAt(files, ScriptPath(s))))
  {
    var days, table := ListAt(files, ScriptPath(s)), ScriptTable(files, live, s, SummarizerOf(s));
    RootTableFacts(files, live, Summarizers(), hourOf);
    TabulatesById(ListAt(files, RootIndexPath()), RootTable(files, live));
    assert ScriptRebuilt(files, live, s, Summarizers()(s));
    ScriptTableFacts(files, live, s, SummarizerOf(s), hourOf);
    TabulatesById(days, table);
    if s in ScriptsOf(live) {
      LiveDates(live, s, [], hourOf);
      EmptyTable(days, table);
      NewestDay(days, table);
    }
  }

  /**
   * After every run of batches without I/O failure, for every script and date: what the files say
   * is what the live hours say.
   */
  lemma RunsSay(batches: seq<seq<Record>>, io: Weather, host: Host, s: Str, d: Str)
    requires Fair(io) && GoodRun(batches, HourReaderOf(host)) && ScriptName(s)
    ensures
      var files, live := Run(map[], batches, io, HourReaderOf(host)), LiveRun(map[], batches, HourReaderOf(host));
      var days, hours := ById(ListAt(files, ScriptPath(s))), DayTable(live, s, d);
      && (d in days <==> hours != map[]) && (d in days ==> SumsUp(days[d], s, d, hours))
      && (s in ById(ListAt(files, RootIndexPath())) <==> s in ScriptsOf(live))
      && (s in ScriptsOf(live) ==> Leads(ById(ListAt(files, RootIndexPath()))[s], s, DatesOf(live, s), days))
  {
    var hourOf := HourReaderOf(host);
    var files, live := Run(map[], batches, io, hourOf), LiveRun(map[], batches, hourOf);
    RunsEqualRebuild(batches, io, host);
    EmptyStoreRebuilt(Summarizers());
    RunRebuilt(map[], map[], batches, io, hourOf, Summarizers());
    ScriptFileSays(files, live, s, d, hourOf);
    RootFileSays(files, live, s, hourOf);
  }
}
