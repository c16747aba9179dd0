/**
 * Runs of rollup batches: without read or write failures the three levels of indexes always
 * equal a rebuild from the live hours, so batching is invisible.
 */
module RollupRuns {
  import opened Wrappers
  import opened JsStrings
  import opened PathSegments
  import opened RollupPaths
  import opened RollupRows
  import opened RollupEmitter
  import opened RollupRefinement
  import opened RollupEffects

  // ---------------------------------------------------------------------------
  // Which dates and scripts are live
  // ---------------------------------------------------------------------------

  lemma LiveDates(live: Live, s: Str, d: Str, hourOf: HourReader)
    requires LiveKeys(live, hourOf)
    ensures d in DatesOf(live, s) <==> DayTable(live, s, d).Keys != {}
    ensures d in DatesOf(live, s) ==> Plain(d) && ScriptName(s)
    ensures s in ScriptsOf(live) <==> DatesOf(live, s) != {}
  {
    assert DayTable(live, s, d).Keys == HoursOf(live, s, d);
    if d in DatesOf(live, s) {
      var k :| k in live && k.0 == s && DatePart(k.1) == d;
      assert HourKey(k.1, hourOf);
      assert k.1 in HoursOf(live, s, d);
    }
    if h :| h in HoursOf(live, s, d) {
      assert (s, h) in live;
      assert d in DatesOf(live, s);
    }
    if s in ScriptsOf(live) {
      var k :| k in live && k.0 == s;
      assert DatePart(k.1) in DatesOf(live, s);
    }
  }

  /** In a day's table every row's sort key is its hour, and the hour's date is the day. */
  lemma DayTableRows(live: Live, s: Str, d: Str, hourOf: HourReader)
    requires LiveKeys(live, hourOf)
    ensures forall h :: h in DayTable(live, s, d) ==>
      DayTable(live, s, d)[h].updated == DayTable(live, s, d)[h].id == h && DatePart(h) == d
  {}

  lemma DayStrict(rows: seq<Row>, live: Live, s: Str, d: Str, hourOf: HourReader)
    requires LiveKeys(live, hourOf) && Tabulates(rows, DayTable(live, s, d)) && Descending(rows)
    ensures StrictlyDescending(rows)
  {
    DayTableRows(live, s, d, hourOf);
    forall i, j | 0 <= i < j < |rows| ensures rows[i].updated != rows[j].updated {
      assert rows[i] in rows && rows[j] in rows;
    }
    DescendingStrictly(rows);
  }

  // ---------------------------------------------------------------------------
  // One batch
  // ---------------------------------------------------------------------------

  ghost predicate Addresses(accepted: seq<(Str, Entry)>, s: Str, d: Str) {
    s in KeysOf(accepted) && d in DatesIn(EntriesOf(accepted, s))
  }

  /** A day, or a script, that no record addresses keeps its file. */
  lemma UnaddressedUntouched(accepted: seq<(Str, Entry)>, s: Str, d: Str, hourOf: HourReader)
    requires GoodBatch(accepted, hourOf) && ScriptName(s) && Plain(d)
    ensures DayPath(s, d) != RootIndexPath() && ScriptPath(s) != RootIndexPath()
    ensures !Addresses(accepted, s, d) ==> !TouchedByOne(DayPath(s, d), KeysOf(accepted), accepted)
    ensures s !in KeysOf(accepted) ==> !TouchedByOne(ScriptPath(s), KeysOf(accepted), accepted)
  {
    GoodScriptsIn(accepted, hourOf);
    PathsDiffer(s, d, s, d);
    forall t | t in KeysOf(accepted)
      ensures !Addresses(accepted, s, d) ==> !Touches(DayPath(s, d), t, EntriesOf(accepted, t))
      ensures s != t ==> !Touches(ScriptPath(s), t, EntriesOf(accepted, t))
    {
      GoodDatesIn(t, EntriesOf(accepted, t), hourOf);
      PathsDiffer(t, d, s, d);
      PathsDiffer(s, d, t, d);
      forall e | e in DatesIn(EntriesOf(accepted, t))
        ensures DayPath(s, d) == DayPath(t, e) ==> s == t && d == e
        ensures ScriptPath(s) != DayPath(t, e)
      {
        PathsDiffer(s, d, t, e);
      }
    }
  }

  lemma SomeEntry(entries: seq<Entry>)
    ensures entries != [] ==> exists e :: e in entries
  {
    if entries != [] { assert entries[0] in entries; }
  }

  lemma UnaddressedEntries(accepted: seq<(Str, Entry)>, s: Str, d: Str)
    requires !Addresses(accepted, s, d)
    ensures EntriesAt(accepted, s, d) == []
  {
    var entries := EntriesOf(accepted, s);
    EntriesOfMembers(accepted, s);
    EntriesOfMembers(Dated(entries), d);
    KeysOfMembers(accepted);
    KeysOfMembers(Dated(entries));
    DatedMembers(entries);
    assert forall e :: e in EntriesAt(accepted, s, d) ==> (d, e) in Dated(entries) && (s, e) in accepted;
    SomeEntry(EntriesAt(accepted, s, d));
  }

  /** Reads succeed too. */
  ghost predicate Fair(io: Weather) { WritesSucceed(io) && forall p :: io.readOk(p) }

  ghost predicate Step(f: Files, g: Files, io: Weather, live: Live, accepted: seq<(Str, Entry)>, hourOf: HourReader,
                       sums: Str -> Summarizer)
  {
    && Fair(io) && GoodBatch(accepted, hourOf) && LiveKeys(live, hourOf) && sums == Summarizers()
    && Rebuilt(f, live, sums) && BatchEffect(f, g, io, accepted, hourOf, sums)
  }

  ghost function After(live: Live, accepted: seq<(Str, Entry)>, hourOf: HourReader): Live {
    ApplyLive(live, accepted, ChangesOf(hourOf))
  }

  lemma AfterKeys(live: Live, accepted: seq<(Str, Entry)>, hourOf: HourReader)
    requires LiveKeys(live, hourOf) && GoodBatch(accepted, hourOf)
    ensures LiveKeys(After(live, accepted, hourOf), hourOf)
  {
    ChangesFaithful(hourOf);
    ApplyLiveKeys(live, accepted, ChangesOf(hourOf), hourOf);
  }

  lemma AddressedDay(f: Files, g: Files, io: Weather, live: Live, accepted: seq<(Str, Entry)>, hourOf: HourReader,
                     sums: Str -> Summarizer, s: Str, d: Str)
    requires Step(f, g, io, live, accepted, hourOf, sums) && ScriptName(s) && Plain(d) && Addresses(accepted, s, d)
    ensures CanRead(f, io, ScriptPath(s)) && CanRead(f, io, DayPath(s, d))
    ensures DayEffect(f, g, io, s, d, EntriesOf(accepted, s), hourOf)
  {
    assert DayRebuilt(f, live, s, d) && ScriptRebuilt(f, live, s, sums(s));
    assert ScriptEffect(f, g, io, s, EntriesOf(accepted, s), hourOf, sums(s));
  }

  lemma DayAfter(f: Files, g: Files, io: Weather, live: Live, live': Live, s: Str, d: Str, entries: seq<Entry>,
                 hourOf: HourReader)
    requires DayRebuilt(f, live, s, d) && CanRead(f, io, DayPath(s, d)) && DayEffect(f, g, io, s, d, entries, hourOf)
    requires LiveKeys(live', hourOf)
    requires DayTable(live', s, d) == TableApply(DayTable(live, s, d), s, DayEntries(entries, d), ChangesOf(hourOf))
    ensures DayRebuilt(g, live', s, d)
  {
    TabulatesById(ListAt(f, DayPath(s, d)), DayTable(live, s, d));
    DayStrict(ListAt(g, DayPath(s, d)), live', s, d, hourOf);
  }

  lemma DayStep(f: Files, g: Files, io: Weather, live: Live, accepted: seq<(Str, Entry)>, hourOf: HourReader,
                sums: Str -> Summarizer, s: Str, d: Str)
    requires Step(f, g, io, live, accepted, hourOf, sums) && ScriptName(s) && Plain(d)
    ensures DayRebuilt(g, After(live, accepted, hourOf), s, d)
    ensures !Addresses(accepted, s, d) ==>
      SameAt(f, g, DayPath(s, d)) && DayTable(After(live, accepted, hourOf), s, d) == DayTable(live, s, d)
  {
    assert DayRebuilt(f, live, s, d);
    DayTableApply(live, accepted, s, d, ChangesOf(hourOf));
    if Addresses(accepted, s, d) {
      AddressedDay(f, g, io, live, accepted, hourOf, sums, s, d);
      AfterKeys(live, accepted, hourOf);
      DayAfter(f, g, io, live, After(live, accepted, hourOf), s, d, EntriesOf(accepted, s), hourOf);
    } else {
      UnaddressedUntouched(accepted, s, d, hourOf);
      UnaddressedEntries(accepted, s, d);
      assert SameAt(f, g, DayPath(s, d));
    }
  }

  // ---------------------------------------------------------------------------
  // Script and root files
  // ---------------------------------------------------------------------------

  /** A summarizer that skips exactly the empty days, keeps the date as key and the latest hour as sort key. */
  ghost predicate Summarizes(sum: Summarizer) {
    && (forall d: Str, rows: seq<Row> :: sum(d, rows).Some? <==> rows != [])
    && (forall d: Str, rows: seq<Row> :: rows != [] ==>
         sum(d, rows).value.id == d && sum(d, rows).value.updated == rows[0].updated)
  }

  lemma SummarizersSummarize(sums: Str -> Summarizer, s: Str)
    requires sums == Summarizers()
    ensures Summarizes(sums(s))
  {}

  /** One row per non-empty day file. */
  ghost predicate ListsDays(files: Files, table: map<Str, Row>, s: Str, sum: Summarizer) {
    forall d :: LookUp(table, d) == (if Plain(d) then sum(d, ListAt(files, DayPath(s, d))) else None)
  }

  /** One row per non-empty script file. */
  ghost predicate ListsScripts(files: Files, table: map<Str, Row>) {
    forall s :: LookUp(table, s) == (if ScriptName(s) then RootRowOf(files, s) else None)
  }

  /** Which dates a script file lists, and in which order its rows sort. */
  lemma ScriptTableFacts(files: Files, live: Live, s: Str, sum: Summarizer, hourOf: HourReader)
    requires ScriptName(s) && LiveKeys(live, hourOf) && Summarizes(sum)
    requires forall d :: Plain(d) ==> DayRebuilt(files, live, s, d)
    ensures ListsDays(files, ScriptTable(files, live, s, sum), s, sum)
    ensures forall d :: d in ScriptTable(files, live, s, sum) ==>
      DatePart(ScriptTable(files, live, s, sum)[d].updated) == d
    ensures ScriptTable(files, live, s, sum).Keys == DatesOf(live, s)
  {
    forall d
      ensures LookUp(ScriptTable(files, live, s, sum), d)
        == if Plain(d) then sum(d, ListAt(files, DayPath(s, d))) else None
      ensures d in ScriptTable(files, live, s, sum) <==> d in DatesOf(live, s)
      ensures d in ScriptTable(files, live, s, sum) ==> DatePart(ScriptTable(files, live, s, sum)[d].updated) == d
    {
      LiveDates(live, s, d, hourOf);
      if Plain(d) {
        var rows := ListAt(files, DayPath(s, d));
        EmptyTable(rows, DayTable(live, s, d));
        DayTableRows(live, s, d, hourOf);
        if rows != [] { assert rows[0] in rows; }
      }
    }
  }

  lemma ScriptStrict(rows: seq<Row>, table: map<Str, Row>)
    requires Tabulates(rows, table) && Descending(rows)
    requires forall d :: d in table ==> DatePart(table[d].updated) == d
    ensures StrictlyDescending(rows)
  {
    forall i, j | 0 <= i < j < |rows| ensures rows[i].updated != rows[j].updated {
      assert rows[i] in rows && rows[j] in rows;
    }
    DescendingStrictly(rows);
  }

  lemma SameTable(a: map<Str, Row>, b: map<Str, Row>)
    requires forall k :: LookUp(a, k) == LookUp(b, k)
    ensures a == b
  {
    forall k ensures k in a <==> k in b { assert LookUp(a, k) == LookUp(b, k); }
    forall k | k in a ensures a[k] == b[k] { assert LookUp(a, k) == LookUp(b, k); }
  }

  /** The tables of a script's days before and after a batch. */
  lemma ScriptTables(f: Files, g: Files, io: Weather, live: Live, accepted: seq<(Str, Entry)>, hourOf: HourReader,
                     sums: Str -> Summarizer, live': Live, s: Str)
    requires Step(f, g, io, live, accepted, hourOf, sums) && ScriptName(s) && live' == After(live, accepted, hourOf)
    ensures ListsDays(f, ScriptTable(f, live, s, sums(s)), s, sums(s))
    ensures ListsDays(g, ScriptTable(g, live', s, sums(s)), s, sums(s))
    ensures forall d :: d in ScriptTable(g, live', s, sums(s)) ==>
      DatePart(ScriptTable(g, live', s, sums(s))[d].updated) == d
    ensures forall d :: Plain(d) ==> CanRead(f, io, DayPath(s, d))
    ensures forall d :: Plain(d) && !Addresses(accepted, s, d) ==> ListAt(f, DayPath(s, d)) == ListAt(g, DayPath(s, d))
  {
    AfterKeys(live, accepted, hourOf);
    SummarizersSummarize(sums, s);
    forall d | Plain(d)
      ensures DayRebuilt(f, live, s, d) && DayRebuilt(g, live', s, d) && CanRead(f, io, DayPath(s, d))
      ensures !Addresses(accepted, s, d) ==> ListAt(f, DayPath(s, d)) == ListAt(g, DayPath(s, d))
    {
      DayBothSides(f, g, io, live, accepted, hourOf, sums, live', s, d);
    }
    ScriptTableFacts(f, live, s, sums(s), hourOf);
    ScriptTableFacts(g, live', s, sums(s), hourOf);
  }

  lemma DayBothSides(f: Files, g: Files, io: Weather, live: Live, accepted: seq<(Str, Entry)>, hourOf: HourReader,
                     sums: Str -> Summarizer, live': Live, s: Str, d: Str)
    requires Step(f, g, io, live, accepted, hourOf, sums) && live' == After(live, accepted, hourOf)
    requires ScriptName(s) && Plain(d)
    ensures DayRebuilt(f, live, s, d) && DayRebuilt(g, live', s, d) && CanRead(f, io, DayPath(s, d))
    ensures !Addresses(accepted, s, d) ==> ListAt(f, DayPath(s, d)) == ListAt(g, DayPath(s, d))
  {
    DayStep(f, g, io, live, accepted, hourOf, sums, s, d);
    assert DayRebuilt(f, live, s, d);
  }

  lemma ScriptStep(f: Files, g: Files, io: Weather, live: Live, accepted: seq<(Str, Entry)>, hourOf: HourReader,
                   sums: Str -> Summarizer, live': Live, s: Str)
    requires Step(f, g, io, live, accepted, hourOf, sums) && ScriptName(s) && live' == After(live, accepted, hourOf)
    ensures ScriptRebuilt(g, live', s, sums(s))
    ensures s !in KeysOf(accepted) ==> SameAt(f, g, ScriptPath(s))
  {
    assert ScriptRebuilt(f, live, s, sums(s));
    ScriptTables(f, g, io, live, accepted, hourOf, sums, live', s);
    if s in KeysOf(accepted) {
      AddressedScript(f, g, io, accepted, hourOf, sums, s, ScriptTable(f, live, s, sums(s)),
                      ScriptTable(g, live', s, sums(s)));
    } else {
      UnaddressedUntouched(accepted, s, [], hourOf);
      assert SameAt(f, g, ScriptPath(s));
      UnaddressedScript(f, g, accepted, s, sums(s), ScriptTable(f, live, s, sums(s)),
                        ScriptTable(g, live', s, sums(s)));
    }
  }

  lemma AddressedScript(f: Files, g: Files, io: Weather, accepted: seq<(Str, Entry)>, hourOf: HourReader,
                        sums: Str -> Summarizer, s: Str, before: map<Str, Row>, after: map<Str, Row>)
    requires GoodBatch(accepted, hourOf) && BatchEffect(f, g, io, accepted, hourOf, sums) && s in KeysOf(accepted)
    requires CanRead(f, io, ScriptPath(s)) && Tabulates(ListAt(f, ScriptPath(s)), before)
    requires ListsDays(f, before, s, sums(s)) && ListsDays(g, after, s, sums(s))
    requires forall d :: d in after ==> DatePart(after[d].updated) == d
    requires forall d :: Plain(d) ==> CanRead(f, io, DayPath(s, d))
    requires forall d :: Plain(d) && !Addresses(accepted, s, d) ==> ListAt(f, DayPath(s, d)) == ListAt(g, DayPath(s, d))
    ensures Stored(g, ScriptPath(s)).Some?
    ensures Tabulates(ListAt(g, ScriptPath(s)), after) && StrictlyDescending(ListAt(g, ScriptPath(s)))
  {
    var entries := EntriesOf(accepted, s);
    assert ScriptEffect(f, g, io, s, entries, hourOf, sums(s));
    GoodScriptsIn(accepted, hourOf);
    GoodDatesIn(s, entries, hourOf);
    ScriptAfter(f, g, io, s, entries, hourOf, sums(s), before, after);
  }

  lemma UnaddressedScript(f: Files, g: Files, accepted: seq<(Str, Entry)>, s: Str, sum: Summarizer,
                          before: map<Str, Row>, after: map<Str, Row>)
    requires ListsDays(f, before, s, sum) && ListsDays(g, after, s, sum) && s !in KeysOf(accepted)
    requires forall d :: Plain(d) && !Addresses(accepted, s, d) ==> ListAt(f, DayPath(s, d)) == ListAt(g, DayPath(s, d))
    ensures before == after
  {
    forall d ensures LookUp(before, d) == LookUp(after, d) {
      assert !Addresses(accepted, s, d);
    }
    SameTable(before, after);
  }

  /** A script file after its days: the table of the new day files. */
  lemma ScriptAfter(f: Files, g: Files, io: Weather, s: Str, entries: seq<Entry>, hourOf: HourReader, sum: Summarizer,
                    before: map<Str, Row>, after: map<Str, Row>)
    requires CanRead(f, io, ScriptPath(s)) && ScriptEffect(f, g, io, s, entries, hourOf, sum)
    requires forall d :: Plain(d) ==> CanRead(f, io, DayPath(s, d))
    requires forall d :: d in DatesIn(entries) ==> Plain(d)
    requires forall d :: Plain(d) && d !in DatesIn(entries) ==> ListAt(f, DayPath(s, d)) == ListAt(g, DayPath(s, d))
    requires ListsDays(f, before, s, sum) && ListsDays(g, after, s, sum)
    requires forall d :: d in after ==> DatePart(after[d].updated) == d
    requires Tabulates(ListAt(f, ScriptPath(s)), before)
    ensures Stored(g, ScriptPath(s)).Some?
    ensures Tabulates(ListAt(g, ScriptPath(s)), after) && StrictlyDescending(ListAt(g, ScriptPath(s)))
  {
    var list := ListAt(g, ScriptPath(s));
    TabulatesById(ListAt(f, ScriptPath(s)), before);
    forall d ensures LookUp(ById(list), d) == LookUp(after, d) {
      assert LookUp(before, d) == if Plain(d) then sum(d, ListAt(f, DayPath(s, d))) else None;
    }
    SameTable(ById(list), after);
    ScriptStrict(list, after);
  }

  lemma RootTableFacts(files: Files, live: Live, sums: Str -> Summarizer, hourOf: HourReader)
    requires LiveKeys(live, hourOf) && sums == Summarizers()
    requires forall s, d :: ScriptName(s) && Plain(d) ==> DayRebuilt(files, live, s, d)
    requires forall s :: ScriptName(s) ==> ScriptRebuilt(files, live, s, sums(s))
    ensures ListsScripts(files, RootTable(files, live))
    ensures RootTable(files, live).Keys == ScriptsOf(live)
  {
    forall s
      ensures LookUp(RootTable(files, live), s) == if ScriptName(s) then RootRowOf(files, s) else None
      ensures s in RootTable(files, live) <==> s in ScriptsOf(live)
    {
      LiveDates(live, s, [], hourOf);
      if s in ScriptsOf(live) {
        var d :| d in DatesOf(live, s);
        LiveDates(live, s, d, hourOf);
      }
      if ScriptName(s) {
        SummarizersSummarize(sums, s);
        ScriptTableFacts(files, live, s, sums(s), hourOf);
        EmptyTable(ListAt(files, ScriptPath(s)), ScriptTable(files, live, s, sums(s)));
      }
    }
  }

  lemma LevelsStep(f: Files, g: Files, io: Weather, live: Live, accepted: seq<(Str, Entry)>, hourOf: HourReader,
                   sums: Str -> Summarizer, live': Live)
    requires Step(f, g, io, live, accepted, hourOf, sums) && live' == After(live, accepted, hourOf)
    ensures forall s, d :: ScriptName(s) && Plain(d) ==> DayRebuilt(g, live', s, d)
    ensures forall s :: ScriptName(s) ==> ScriptRebuilt(g, live', s, sums(s))
    ensures forall s :: ScriptName(s) && s !in KeysOf(accepted) ==> RootRowOf(f, s) == RootRowOf(g, s)
  {
    forall s, d | ScriptName(s) && Plain(d) ensures DayRebuilt(g, live', s, d) {
      DayStep(f, g, io, live, accepted, hourOf, sums, s, d);
    }
    forall s | ScriptName(s)
      ensures ScriptRebuilt(g, live', s, sums(s))
      ensures s !in KeysOf(accepted) ==> RootRowOf(f, s) == RootRowOf(g, s)
    {
      ScriptAndRoot(f, g, io, live, accepted, hourOf, sums, live', s);
    }
  }

  lemma ScriptAndRoot(f: Files, g: Files, io: Weather, live: Live, accepted: seq<(Str, Entry)>, hourOf: HourReader,
                      sums: Str -> Summarizer, live': Live, s: Str)
    requires Step(f, g, io, live, accepted, hourOf, sums) && ScriptName(s) && live' == After(live, accepted, hourOf)
    ensures ScriptRebuilt(g, live', s, sums(s)) && (s !in KeysOf(accepted) ==> RootRowOf(f, s) == RootRowOf(g, s))
  {
    ScriptStep(f, g, io, live, accepted, hourOf, sums, live', s);
  }

  /** One batch without failures takes a rebuilt store to the rebuilt store of the new live hours. */
  lemma BatchKeepsRebuilt(f: Files, g: Files, io: Weather, live: Live, accepted: seq<(Str, Entry)>, hourOf: HourReader,
                          sums: Str -> Summarizer)
    requires Step(f, g, io, live, accepted, hourOf, sums)
    ensures Rebuilt(g, After(live, accepted, hourOf), sums)
  {
    var live' := After(live, accepted, hourOf);
    AfterKeys(live, accepted, hourOf);
    LevelsStep(f, g, io, live, accepted, hourOf, sums, live');
    RootStep(f, g, io, live, accepted, hourOf, sums, live');
  }

  lemma RootStep(f: Files, g: Files, io: Weather, live: Live, accepted: seq<(Str, Entry)>, hourOf: HourReader,
                 sums: Str -> Summarizer, live': Live)
    requires Step(f, g, io, live, accepted, hourOf, sums) && LiveKeys(live', hourOf)
    requires forall s, d :: ScriptName(s) && Plain(d) ==> DayRebuilt(g, live', s, d)
    requires forall s :: ScriptName(s) ==> ScriptRebuilt(g, live', s, sums(s))
    requires forall s :: ScriptName(s) && s !in KeysOf(accepted) ==> RootRowOf(f, s) == RootRowOf(g, s)
    ensures RootRebuilt(g, live')
  {
    RootTableFacts(f, live, sums, hourOf);
    RootTableFacts(g, live', sums, hourOf);
    GoodScriptsIn(accepted, hourOf);
    forall s | s in KeysOf(accepted) ensures CanRead(f, io, ScriptPath(s)) {
      assert ScriptRebuilt(f, live, s, sums(s));
    }
    RootAfter(f, g, io, accepted, hourOf, sums, RootTable(f, live), RootTable(g, live'));
  }

  /** The root file after its scripts: the table of the new script files. */
  lemma RootAfter(f: Files, g: Files, io: Weather, accepted: seq<(Str, Entry)>, hourOf: HourReader,
                  sums: Str -> Summarizer, before: map<Str, Row>, after: map<Str, Row>)
    requires BatchEffect(f, g, io, accepted, hourOf, sums) && CanRead(f, io, RootIndexPath())
    requires forall s :: s in KeysOf(accepted) ==> ScriptName(s) && CanRead(f, io, ScriptPath(s))
    requires forall s :: ScriptName(s) && s !in KeysOf(accepted) ==> RootRowOf(f, s) == RootRowOf(g, s)
    requires ListsScripts(f, before) && ListsScripts(g, after)
    requires Tabulates(ListAt(f, RootIndexPath()), before) && Descending(ListAt(f, RootIndexPath()))
    ensures Stored(g, RootIndexPath()).Some?
    ensures Tabulates(ListAt(g, RootIndexPath()), after) && Descending(ListAt(g, RootIndexPath()))
  {
    var list := ListAt(g, RootIndexPath());
    TabulatesById(ListAt(f, RootIndexPath()), before);
    if KeysOf(accepted) == [] {
      SameTable(before, after);
    } else {
      assert KeysOf(accepted)[0] in KeysOf(accepted);
      forall s ensures LookUp(ById(list), s) == LookUp(after, s) {
        assert LookUp(before, s) == if ScriptName(s) then RootRowOf(f, s) else None;
      }
      SameTable(ById(list), after);
    }
  }

  // ---------------------------------------------------------------------------
  // Runs
  // ---------------------------------------------------------------------------

  /** The files after one batch. */
  function Batch(files: Files, records: seq<Record>, io: Weather, hourOf: HourReader): Files {
    Emit(State(files, 0, [], []), records, io, hourOf).state.files
  }

  function Run(files: Files, batches: seq<seq<Record>>, io: Weather, hourOf: HourReader): Files {
    if batches == [] then files
    else Batch(Run(files, batches[..|batches| - 1], io, hourOf), batches[|batches| - 1], io, hourOf)
  }

  function AcceptedIn(records: seq<Record>, hourOf: HourReader): seq<(Str, Entry)> {
    Accepted(records, LocatorOf(hourOf))
  }

  /** The hours left live by a run: the last record of each hour decides. */
  ghost function LiveRun(live: Live, batches: seq<seq<Record>>, hourOf: HourReader): Live {
    if batches == [] then live
    else After(LiveRun(live, batches[..|batches| - 1], hourOf), AcceptedIn(batches[|batches| - 1], hourOf), hourOf)
  }

  /** Accepted records name well-formed scripts and hours of four-digit years. */
  ghost predicate GoodRun(batches: seq<seq<Record>>, hourOf: HourReader) {
    forall i :: 0 <= i < |batches| ==> GoodBatch(AcceptedIn(batches[i], hourOf), hourOf)
  }

  lemma SameContent(f: Files, g: Files, live: Live, s: Str, sum: Summarizer)
    requires forall p :: Stored(f, p) == Stored(g, p)
    ensures forall p :: ListAt(f, p) == ListAt(g, p)
    ensures ScriptTable(f, live, s, sum) == ScriptTable(g, live, s, sum)
    ensures RootRowOf(f, s) == RootRowOf(g, s)
  {}

  lemma RootByContent(f: Files, g: Files, live: Live, sum: Summarizer)
    requires RootRebuilt(f, live) && forall p :: Stored(f, p) == Stored(g, p)
    ensures RootRebuilt(g, live)
  {
    forall s ensures RootRowOf(f, s) == RootRowOf(g, s) { SameContent(f, g, live, s, sum); }
    assert RootTable(f, live) == RootTable(g, live);
    SameContent(f, g, live, [], sum);
  }

  /** Rebuilding looks at what the index paths hold, a missing file and an empty one being alike. */
  lemma RebuiltByContent(f: Files, g: Files, live: Live, sums: Str -> Summarizer)
    requires Rebuilt(f, live, sums)
    requires forall p :: Stored(f, p) == Stored(g, p)
    ensures Rebuilt(g, live, sums)
  {
    forall s, d | ScriptName(s) && Plain(d) ensures DayRebuilt(g, live, s, d) {
      assert DayRebuilt(f, live, s, d);
      SameContent(f, g, live, s, sums(s));
    }
    forall s | ScriptName(s) ensures ScriptRebuilt(g, live, s, sums(s)) {
      assert ScriptRebuilt(f, live, s, sums(s));
      SameContent(f, g, live, s, sums(s));
    }
    RootByContent(f, g, live, sums([]));
  }

  lemma EmitNothingContent(st: State, io: Weather)
    ensures forall p :: Stored(EmitNothing(st, io).files, p) == Stored(st.files, p)
  {}

  lemma BatchRebuilt(f: Files, live: Live, records: seq<Record>, io: Weather, hourOf: HourReader,
                     sums: Str -> Summarizer)
    requires Fair(io) && GoodBatch(AcceptedIn(records, hourOf), hourOf) && LiveKeys(live, hourOf)
    requires sums == Summarizers() && Rebuilt(f, live, sums)
    ensures Emit(State(f, 0, [], []), records, io, hourOf).Done?
    ensures Rebuilt(Batch(f, records, io, hourOf), After(live, AcceptedIn(records, hourOf), hourOf), sums)
  {
    var st, accepted := State(f, 0, [], []), AcceptedIn(records, hourOf);
    var skipped := st.(errors := st.errors + SkipErrors(records, LocatorOf(hourOf)));
    if records == [] {
      EmitNothingContent(st, io);
      RebuiltByContent(f, EmitNothing(st, io).files, live, sums);
    } else if accepted != [] {
      EmitAcceptedEffect(skipped, accepted, io, hourOf, sums);
      BatchKeepsRebuilt(f, EmitAccepted(skipped, accepted, io, hourOf).state.files, io, live, accepted, hourOf, sums);
    }
  }

  lemma {:induction false} RunRebuilt(f: Files, live: Live, batches: seq<seq<Record>>, io: Weather, hourOf: HourReader,
                                      sums: Str -> Summarizer)
    requires Fair(io) && GoodRun(batches, hourOf) && LiveKeys(live, hourOf)
    requires sums == Summarizers() && Rebuilt(f, live, sums)
    ensures Rebuilt(Run(f, batches, io, hourOf), LiveRun(live, batches, hourOf), sums)
    ensures LiveKeys(LiveRun(live, batches, hourOf), hourOf)
  {
    if batches == [] {
    } else {
      var front, last := batches[..|batches| - 1], batches[|batches| - 1];
      RunRebuilt(f, live, front, io, hourOf, sums);
      BatchRebuilt(Run(f, front, io, hourOf), LiveRun(live, front, hourOf), last, io, hourOf, sums);
      AfterKeys(LiveRun(live, front, hourOf), AcceptedIn(last, hourOf), hourOf);
    }
  }

  lemma EmptyTables(live: Live, s: Str, d: Str, sum: Summarizer)
    requires live == map[]
    ensures DayTable(live, s, d) == map[] && ScriptTable(map[], live, s, sum) == map[]
      && RootTable(map[], live) == map[]
  {
    assert HoursOf(live, s, d) == {} && DatesOf(live, s) == {} && ScriptsOf(live) == {};
  }

  lemma EmptyStoreRebuilt(sums: Str -> Summarizer)
    ensures Rebuilt(map[], map[], sums)
  {
    forall s, d
      ensures DayRebuilt(map[], map[], s, d) && ScriptRebuilt(map[], map[], s, sums(s)) && RootRebuilt(map[], map[])
    {
      EmptyRebuilt(s, d, sums(s));
    }
  }

  lemma EmptyRebuilt(s: Str, d: Str, sum: Summarizer)
    ensures DayRebuilt(map[], map[], s, d) && ScriptRebuilt(map[], map[], s, sum) && RootRebuilt(map[], map[])
  {
    EmptyTables(map[], s, d, sum);
  }

  /**
   * From an empty store, after every run of batches without I/O failure, the day, script and
   * root files equal a rebuild from the live hours.
   */
  lemma RunsEqualRebuild(batches: seq<seq<Record>>, io: Weather, host: Host)
    requires Fair(io) && GoodRun(batches, HourReaderOf(host))
    ensures
      var files, live := Run(map[], batches, io, HourReaderOf(host)), LiveRun(map[], batches, HourReaderOf(host));
      Rebuilt(files, live, Summarizers())
  {
    EmptyStoreRebuilt(Summarizers());
    RunRebuilt(map[], map[], batches, io, HourReaderOf(host), Summarizers());
  }

  /** A rebuild is determined by the live hours: day and script lists entirely, the root list as a table. */
  lemma RebuildUnique(f: Files, g: Files, live: Live, sums: Str -> Summarizer, hourOf: HourReader)
    requires Rebuilt(f, live, sums) && Rebuilt(g, live, sums) && LiveKeys(live, hourOf)
    ensures forall s, d :: ScriptName(s) && Plain(d) ==> ListAt(f, DayPath(s, d)) == ListAt(g, DayPath(s, d))
    ensures forall s :: ScriptName(s) ==> ListAt(f, ScriptPath(s)) == ListAt(g, ScriptPath(s))
    ensures ById(ListAt(f, RootIndexPath())) == ById(ListAt(g, RootIndexPath()))
  {
    RebuildUniqueDays(f, g, live, sums);
    forall s | ScriptName(s) ensures ListAt(f, ScriptPath(s)) == ListAt(g, ScriptPath(s)) {
      RebuildUniqueScript(f, g, live, s, sums(s), hourOf);
    }
    RebuildUniqueRoot(f, g, live, hourOf);
  }

  lemma RebuildUniqueRoot(f: Files, g: Files, live: Live, hourOf: HourReader)
    requires RootRebuilt(f, live) && RootRebuilt(g, live) && LiveKeys(live, hourOf)
    requires forall s :: ScriptName(s) ==> ListAt(f, ScriptPath(s)) == ListAt(g, ScriptPath(s))
    ensures ById(ListAt(f, RootIndexPath())) == ById(ListAt(g, RootIndexPath()))
  {
    SameRootTables(f, g, live, hourOf);
    TabulatesById(ListAt(f, RootIndexPath()), RootTable(f, live));
    TabulatesById(ListAt(g, RootIndexPath()), RootTable(g, live));
  }

  lemma SameRootTables(f: Files, g: Files, live: Live, hourOf: HourReader)
    requires LiveKeys(live, hourOf)
    requires forall s :: ScriptName(s) ==> ListAt(f, ScriptPath(s)) == ListAt(g, ScriptPath(s))
    ensures RootTable(f, live) == RootTable(g, live)
  {
    forall s | s in ScriptsOf(live) ensures RootRowOf(f, s) == RootRowOf(g, s) {
      var k :| k in live && k.0 == s;
      assert ScriptName(s);
    }
  }

  lemma RebuildUniqueScript(f: Files, g: Files, live: Live, s: Str, sum: Summarizer, hourOf: HourReader)
    requires ScriptName(s) && ScriptRebuilt(f, live, s, sum) && ScriptRebuilt(g, live, s, sum) && LiveKeys(live, hourOf)
    requires forall d :: Plain(d) ==> ListAt(f, DayPath(s, d)) == ListAt(g, DayPath(s, d))
    ensures ListAt(f, ScriptPath(s)) == ListAt(g, ScriptPath(s))
  {
    forall d | d in DatesOf(live, s) ensures ListAt(f, DayPath(s, d)) == ListAt(g, DayPath(s, d)) {
      LiveDates(live, s, d, hourOf);
    }
    assert ScriptTable(f, live, s, sum) == ScriptTable(g, live, s, sum);
    StrictlyDescendingUnique(ListAt(f, ScriptPath(s)), ListAt(g, ScriptPath(s)), ScriptTable(f, live, s, sum));
  }

  lemma RebuildUniqueDays(f: Files, g: Files, live: Live, sums: Str -> Summarizer)
    requires Rebuilt(f, live, sums) && Rebuilt(g, live, sums)
    ensures forall s, d :: ScriptName(s) && Plain(d) ==> ListAt(f, DayPath(s, d)) == ListAt(g, DayPath(s, d))
  {
    forall s, d | ScriptName(s) && Plain(d) ensures ListAt(f, DayPath(s, d)) == ListAt(g, DayPath(s, d)) {
      assert DayRebuilt(f, live, s, d) && DayRebuilt(g, live, s, d);
      StrictlyDescendingUnique(ListAt(f, DayPath(s, d)), ListAt(g, DayPath(s, d)), DayTable(live, s, d));
    }
  }

  // ---------------------------------------------------------------------------
  // Batching is invisible
  // ---------------------------------------------------------------------------

  function Singles(records: seq<Record>): seq<seq<Record>> {
    if records == [] then [] else Singles(records[..|records| - 1]) + [[records[|records| - 1]]]
  }

  lemma SingleAccepted(record: Record, hourOf: HourReader, front: seq<Record>)
    ensures AcceptedIn(front + [record], hourOf) == AcceptedIn(front, hourOf) + AcceptedIn([record], hourOf)
  {
    assert (front + [record])[..|front|] == front;
    assert [record][..0] == [];
    assert AcceptedIn([], hourOf) == [];
  }

  lemma GoodParts(a: seq<(Str, Entry)>, b: seq<(Str, Entry)>, hourOf: HourReader)
    requires GoodBatch(a + b, hourOf)
    ensures GoodBatch(a, hourOf) && GoodBatch(b, hourOf)
  {
    forall i | 0 <= i < |a| ensures ScriptName(a[i].0) && HourKey(a[i].1.hourStart, hourOf) {
      assert (a + b)[i] == a[i];
    }
    forall i | 0 <= i < |b| ensures ScriptName(b[i].0) && HourKey(b[i].1.hourStart, hourOf) {
      assert (a + b)[|a| + i] == b[i];
    }
  }

  lemma LiveRunSnoc(live: Live, batches: seq<seq<Record>>, last: seq<Record>, hourOf: HourReader)
    ensures LiveRun(live, batches + [last], hourOf)
      == After(LiveRun(live, batches, hourOf), AcceptedIn(last, hourOf), hourOf)
  {
    assert (batches + [last])[..|batches|] == batches;
  }

  lemma NoRecords(live: Live, hourOf: HourReader)
    ensures LiveRun(live, Singles([]), hourOf) == After(live, AcceptedIn([], hourOf), hourOf)
      && GoodRun(Singles([]), hourOf)
  {}

  lemma LastRecord(records: seq<Record>, hourOf: HourReader) returns (front: seq<Record>, last: Record)
    requires records != [] && GoodBatch(AcceptedIn(records, hourOf), hourOf)
    ensures |front| < |records| && Singles(records) == Singles(front) + [[last]]
    ensures AcceptedIn(records, hourOf) == AcceptedIn(front, hourOf) + AcceptedIn([last], hourOf)
    ensures GoodBatch(AcceptedIn(front, hourOf), hourOf) && GoodBatch(AcceptedIn([last], hourOf), hourOf)
  {
    front, last := records[..|records| - 1], records[|records| - 1];
    assert records == front + [last];
    SingleAccepted(last, hourOf, front);
    GoodParts(AcceptedIn(front, hourOf), AcceptedIn([last], hourOf), hourOf);
  }

  lemma {:induction false} SinglesLive(live: Live, records: seq<Record>, hourOf: HourReader)
    requires GoodBatch(AcceptedIn(records, hourOf), hourOf)
    ensures LiveRun(live, Singles(records), hourOf) == After(live, AcceptedIn(records, hourOf), hourOf)
    ensures GoodRun(Singles(records), hourOf)
    decreases |records|
  {
    if records == [] {
      NoRecords(live, hourOf);
    } else {
      var front, last := LastRecord(records, hourOf);
      SinglesLive(live, front, hourOf);
      SinglesLast(live, front, last, hourOf);
      GoodRunSnoc(Singles(front), [last], hourOf);
    }
  }

  lemma SinglesLast(live: Live, front: seq<Record>, last: Record, hourOf: HourReader)
    requires LiveRun(live, Singles(front), hourOf) == After(live, AcceptedIn(front, hourOf), hourOf)
    ensures LiveRun(live, Singles(front) + [[last]], hourOf)
         == After(live, AcceptedIn(front, hourOf) + AcceptedIn([last], hourOf), hourOf)
  {
    ApplyLiveConcat(live, AcceptedIn(front, hourOf), AcceptedIn([last], hourOf), ChangesOf(hourOf));
    LiveRunSnoc(live, Singles(front), [last], hourOf);
  }

  lemma GoodRunSnoc(batches: seq<seq<Record>>, last: seq<Record>, hourOf: HourReader)
    requires GoodRun(batches, hourOf) && GoodBatch(AcceptedIn(last, hourOf), hourOf)
    ensures GoodRun(batches + [last], hourOf)
  {}

  /**
   * One batch of n records leaves the same day and script lists, and the same root rows, as n
   * batches of one record each in order.
   */
  lemma BatchEqualsSingles(f: Files, live: Live, records: seq<Record>, io: Weather, hourOf: HourReader)
    requires Fair(io) && GoodBatch(AcceptedIn(records, hourOf), hourOf) && LiveKeys(live, hourOf)
    requires Rebuilt(f, live, Summarizers())
    ensures
      var once, oneByOne := Batch(f, records, io, hourOf), Run(f, Singles(records), io, hourOf);
      && (forall s, d :: ScriptName(s) && Plain(d) ==> ListAt(once, DayPath(s, d)) == ListAt(oneByOne, DayPath(s, d)))
      && (forall s :: ScriptName(s) ==> ListAt(once, ScriptPath(s)) == ListAt(oneByOne, ScriptPath(s)))
      && ById(ListAt(once, RootIndexPath())) == ById(ListAt(oneByOne, RootIndexPath()))
  {
    SinglesLive(live, records, hourOf);
    BatchRebuilt(f, live, records, io, hourOf, Summarizers());
    RunRebuilt(f, live, Singles(records), io, hourOf, Summarizers());
    AfterKeys(live, AcceptedIn(records, hourOf), hourOf);
    RebuildUnique(Batch(f, records, io, hourOf), Run(f, Singles(records), io, hourOf),
                  After(live, AcceptedIn(records, hourOf), hourOf), Summarizers(), hourOf);
  }
}
