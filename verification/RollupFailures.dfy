/**
 * Rollup batches under failure: a failed read never becomes an overwrite, rows a batch does not
 * address survive it, and script rows keep agreeing with their day files. A call rejects, and
 * may leave the root behind its scripts, exactly when a script name cannot be percent-encoded.
 */
module RollupFailures {
  import opened Wrappers
  import opened JsStrings
  import opened PathSegments
  import opened UriCodec
  import opened IsoText
  import opened RollupPaths
  import opened RollupRows
  import opened RollupEmitter
  import opened RollupRefinement
  import opened RollupEffects
  import opened RollupRuns

  // ---------------------------------------------------------------------------
  // Every write follows a successful read of the same file
  // ---------------------------------------------------------------------------

  /** From position `start` on, each write is preceded by a read of its path. */
  ghost predicate Guarded(calls: seq<Call>, start: nat) {
    forall i :: start <= i < |calls| && calls[i].DidWrite? ==>
      exists j :: start <= j < i && calls[j] == DidRead(calls[i].path)
  }

  ghost predicate Knows(calls: seq<Call>, start: nat, p: Str) {
    exists j :: start <= j < |calls| && calls[j] == DidRead(p)
  }

  lemma ReadGuards(st: State, p: Str, io: Weather, start: nat)
    requires start <= |st.calls| && Guarded(st.calls, start)
    ensures
      var got := ReadStrict(st, p, io);
      && st.calls <= got.state.calls && Guarded(got.state.calls, start)
      && (got.value.Some? ==> Knows(got.state.calls, start, p))
  {
    if io.readOk(p) { assert (st.calls + [DidRead(p)])[|st.calls|] == DidRead(p); }
  }

  lemma WriteGuards(st: State, p: Str, rows: seq<Row>, io: Weather, start: nat)
    requires start <= |st.calls| && Guarded(st.calls, start) && Knows(st.calls, start, p)
    ensures st.calls <= SafeWrite(st, p, rows, io).calls && Guarded(SafeWrite(st, p, rows, io).calls, start)
  {
    var j :| start <= j < |st.calls| && st.calls[j] == DidRead(p);
    assert (st.calls + [DidWrite(p)])[j] == DidRead(p);
  }

  lemma KnowsLater(a: seq<Call>, b: seq<Call>, start: nat, p: Str)
    requires a <= b && Knows(a, start, p)
    ensures Knows(b, start, p)
  {
    var j :| start <= j < |a| && a[j] == DidRead(p);
    assert b[j] == a[j];
  }

  lemma DayGuards(st: State, rows: seq<Row>, s: Str, d: Str, entries: seq<Entry>, io: Weather, hourOf: HourReader,
                  start: nat)
    requires start <= |st.calls| && Guarded(st.calls, start)
    ensures
      var after := EmitDay(st, rows, s, d, entries, io, hourOf).state.calls;
      st.calls <= after && Guarded(after, start)
  {
    var path := DayPathOfDate(s, d, hourOf);
    if path.Some? {
      ReadGuards(st, path.value, io, start);
      var got := ReadStrict(st, path.value, io);
      if got.value.Some? {
        var hourRows := ApplyEntries(ToMap(got.value.value), s, entries, hourOf);
        if hourRows.Some? { WriteGuards(got.state, path.value, SortDesc(hourRows.value), io, start); }
      }
    }
  }

  lemma {:induction false} DaysGuards(st: State, rows: seq<Row>, s: Str, dates: seq<Str>, entries: seq<Entry>,
                                      io: Weather, hourOf: HourReader, start: nat)
    requires start <= |st.calls| && Guarded(st.calls, start)
    ensures
      var after := EmitDays(st, rows, s, dates, entries, io, hourOf).state.calls;
      st.calls <= after && Guarded(after, start)
    decreases |dates|
  {
    if dates == [] {
    } else {
      var front, last := dates[..|dates| - 1], dates[|dates| - 1];
      DaysGuards(st, rows, s, front, entries, io, hourOf, start);
      var mid := EmitDays(st, rows, s, front, entries, io, hourOf);
      if mid.Done? { DayGuards(mid.state, mid.value, s, last, DayEntries(entries, last), io, hourOf, start); }
    }
  }

  lemma ScriptGuards(st: State, root: Root, s: Str, entries: seq<Entry>, io: Weather, hourOf: HourReader, start: nat)
    requires start <= |st.calls| && Guarded(st.calls, start)
    ensures
      var after := EmitScript(st, root, s, entries, io, hourOf).state.calls;
      st.calls <= after && Guarded(after, start)
  {
    var path := ScriptIndexPath(s);
    if path.Some? {
      ReadGuards(st, path.value, io, start);
      var got := ReadStrict(st, path.value, io);
      if got.value.Some? {
        DaysGuards(got.state, ToMap(got.value.value), s, DatesIn(entries), entries, io, hourOf, start);
        var days := EmitDays(got.state, ToMap(got.value.value), s, DatesIn(entries), entries, io, hourOf);
        KnowsLater(got.state.calls, days.state.calls, start, path.value);
        if days.Done? { WriteGuards(days.state, path.value, SortDesc(days.value), io, start); }
      }
    }
  }

  lemma {:induction false} ScriptsGuards(st: State, root: Root, scripts: seq<Str>, accepted: seq<(Str, Entry)>,
                                         io: Weather, hourOf: HourReader, start: nat)
    requires start <= |st.calls| && Guarded(st.calls, start)
    ensures
      var after := EmitScripts(st, root, scripts, accepted, io, hourOf).state.calls;
      st.calls <= after && Guarded(after, start)
    decreases |scripts|
  {
    if scripts == [] {
    } else {
      var front, last := scripts[..|scripts| - 1], scripts[|scripts| - 1];
      ScriptsGuards(st, root, front, accepted, io, hourOf, start);
      var mid := EmitScripts(st, root, front, accepted, io, hourOf);
      if mid.Done? { ScriptGuards(mid.state, mid.value, last, EntriesOf(accepted, last), io, hourOf, start); }
    }
  }

  /**
   * Whatever reads and writes fail, and even when the call rejects, a batch writes an index
   * file only after it has read that same file.
   */
  lemma WritesFollowReads(st: State, records: seq<Record>, io: Weather, hourOf: HourReader)
    ensures
      var after := Emit(st, records, io, hourOf).state.calls;
      st.calls <= after && Guarded(after, |st.calls|)
  {
    var start, path := |st.calls|, RootIndexPath();
    if io.canRead && records == [] {
      ReadGuards(st, path, io, start);
      if io.readOk(path) {
        var after := st.(calls := st.calls + [DidRead(path)]);
        assert after.calls[start] == DidRead(path);
        WriteGuards(after, path, [], io, start);
      }
    } else if io.canRead && AcceptedIn(records, hourOf) != [] {
      var skipped := st.(errors := st.errors + SkipErrors(records, LocatorOf(hourOf)));
      var accepted := AcceptedIn(records, hourOf);
      ReadGuards(skipped, path, io, start);
      var got := ReadStrict(skipped, path, io);
      var rows := ToMap(match got.value case Some(rows) => rows case None => []);
      ScriptsGuards(got.state, Root(rows, false), KeysOf(accepted), accepted, io, hourOf, start);
      var end := EmitScripts(got.state, Root(rows, false), KeysOf(accepted), accepted, io, hourOf);
      if end.Done? && got.value.Some? {
        KnowsLater(got.state.calls, end.state.calls, start, path);
        WriteGuards(end.state, path, SortDesc(end.value.rows), io, start);
      }
    }
  }

  // ---------------------------------------------------------------------------
  // What failed reads leave alone
  // ---------------------------------------------------------------------------

  /** What the effect of a batch says of a file that could not be read. */
  lemma UnreadByEffect(f: Files, g: Files, io: Weather, accepted: seq<(Str, Entry)>, hourOf: HourReader,
                       sums: Str -> Summarizer, p: Str)
    requires BatchEffect(f, g, io, accepted, hourOf, sums) && !CanRead(f, io, p)
    ensures SameAt(f, g, p)
  {
    if p != RootIndexPath() && TouchedByOne(p, KeysOf(accepted), accepted) {
      var s :| s in KeysOf(accepted) && Touches(p, s, EntriesOf(accepted, s));
      assert ScriptEffect(f, g, io, s, EntriesOf(accepted, s), hourOf, sums(s));
      if CanRead(f, io, ScriptPath(s)) {
        var d :| d in DatesIn(EntriesOf(accepted, s)) && p == DayPath(s, d);
        assert DayEffect(f, g, io, s, d, EntriesOf(accepted, s), hourOf);
      }
    }
  }

  lemma {:induction false} OtherHoursKept(table: map<Str, Row>, s: Str, entries: seq<Entry>, f: Editor, h: Str)
    requires forall e :: e in entries ==> e.hourStart != h
    ensures LookUp(TableApply(table, s, entries, f), h) == LookUp(table, h)
  {
    if entries == [] {
    } else {
      var last, front := entries[|entries| - 1], entries[..|entries| - 1];
      assert last in entries && forall e :: e in front ==> e in entries;
      OtherHoursKept(table, s, front, f, h);
    }
  }

  lemma HoursByEffect(f: Files, g: Files, io: Weather, accepted: seq<(Str, Entry)>, hourOf: HourReader,
                      sums: Str -> Summarizer, s: Str, d: Str, h: Str)
    requires GoodBatch(accepted, hourOf) && BatchEffect(f, g, io, accepted, hourOf, sums)
    requires ScriptName(s) && Plain(d)
    requires forall e :: (s, e) in accepted ==> e.hourStart != h
    ensures LookUp(ById(ListAt(g, DayPath(s, d))), h) == LookUp(ById(ListAt(f, DayPath(s, d))), h)
  {
    UnaddressedUntouched(accepted, s, d, hourOf);
    if !Addresses(accepted, s, d) {
      assert SameAt(f, g, DayPath(s, d));
    } else if !CanRead(f, io, DayPath(s, d)) {
      UnreadByEffect(f, g, io, accepted, hourOf, sums, DayPath(s, d));
    } else {
      var entries := EntriesOf(accepted, s);
      assert ScriptEffect(f, g, io, s, entries, hourOf, sums(s));
      assert Touches(DayPath(s, d), s, entries);
      if CanRead(f, io, ScriptPath(s)) {
        EntriesOfMembers(accepted, s);
        EntriesOfMembers(Dated(entries), d);
        DatedMembers(entries);
        var before := ById(ListAt(f, DayPath(s, d)));
        OtherHoursKept(before, s, DayEntries(entries, d), ChangesOf(hourOf), h);
        assert DayEffect(f, g, io, s, d, entries, hourOf);
        TabulatesById(ListAt(g, DayPath(s, d)), TableApply(before, s, DayEntries(entries, d), ChangesOf(hourOf)));
      }
    }
  }

  lemma DatesByEffect(f: Files, g: Files, io: Weather, accepted: seq<(Str, Entry)>, hourOf: HourReader,
                      sums: Str -> Summarizer, s: Str, d: Str)
    requires GoodBatch(accepted, hourOf) && BatchEffect(f, g, io, accepted, hourOf, sums)
    requires ScriptName(s) && Plain(d) && !Addresses(accepted, s, d)
    ensures LookUp(ById(ListAt(g, ScriptPath(s))), d) == LookUp(ById(ListAt(f, ScriptPath(s))), d)
  {
    UnaddressedUntouched(accepted, s, d, hourOf);
    if s !in KeysOf(accepted) {
      assert SameAt(f, g, ScriptPath(s));
    } else {
      assert ScriptEffect(f, g, io, s, EntriesOf(accepted, s), hourOf, sums(s));
      assert Touches(ScriptPath(s), s, EntriesOf(accepted, s));
    }
  }

  /** A batch that accepts no record changes nothing that can be read; any other has the effect its records call for. */
  lemma BatchCases(f: Files, records: seq<Record>, io: Weather, hourOf: HourReader, sums: Str -> Summarizer)
    requires WritesSucceed(io) && GoodBatch(AcceptedIn(records, hourOf), hourOf) && sums == Summarizers()
    ensures AcceptedIn(records, hourOf) == [] ==>
      forall p ::
        Stored(f, p) == Stored(Batch(f, records, io, hourOf), p)
        && (!CanRead(f, io, p) ==> SameAt(f, Batch(f, records, io, hourOf), p))
    ensures AcceptedIn(records, hourOf) != [] ==>
      BatchEffect(f, Batch(f, records, io, hourOf), io, AcceptedIn(records, hourOf), hourOf, sums)
  {
    var st, accepted := State(f, 0, [], []), AcceptedIn(records, hourOf);
    if records == [] {
      EmitNothingContent(st, io);
    } else if accepted != [] {
      EmitAcceptedEffect(st.(errors := SkipErrors(records, LocatorOf(hourOf))), accepted, io, hourOf, sums);
      assert st.errors + SkipErrors(records, LocatorOf(hourOf)) == SkipErrors(records, LocatorOf(hourOf));
    }
  }

  /** Whatever reads fail, a file that a batch could not read keeps its content. */
  lemma UnreadableUntouched(f: Files, records: seq<Record>, io: Weather, hourOf: HourReader, p: Str)
    requires WritesSucceed(io) && GoodBatch(AcceptedIn(records, hourOf), hourOf) && !CanRead(f, io, p)
    ensures SameAt(f, Batch(f, records, io, hourOf), p)
  {
    BatchCases(f, records, io, hourOf, Summarizers());
    if AcceptedIn(records, hourOf) != [] {
      UnreadByEffect(f, Batch(f, records, io, hourOf), io, AcceptedIn(records, hourOf), hourOf, Summarizers(), p);
    }
  }

  /** Whatever reads fail, an hour that no record of a batch addresses keeps its row. */
  lemma OtherHours(f: Files, records: seq<Record>, io: Weather, hourOf: HourReader, s: Str, d: Str, h: Str)
    requires WritesSucceed(io) && GoodBatch(AcceptedIn(records, hourOf), hourOf) && ScriptName(s) && Plain(d)
    requires forall e :: (s, e) in AcceptedIn(records, hourOf) ==> e.hourStart != h
    ensures LookUp(ById(ListAt(Batch(f, records, io, hourOf), DayPath(s, d))), h)
      == LookUp(ById(ListAt(f, DayPath(s, d))), h)
  {
    BatchCases(f, records, io, hourOf, Summarizers());
    if AcceptedIn(records, hourOf) != [] {
      HoursByEffect(f, Batch(f, records, io, hourOf), io, AcceptedIn(records, hourOf), hourOf, Summarizers(), s, d, h);
    } else {
      assert Stored(f, DayPath(s, d)) == Stored(Batch(f, records, io, hourOf), DayPath(s, d));
    }
  }

  /** Whatever reads fail, a date that no record of a batch addresses keeps its row in the script file. */
  lemma OtherDates(f: Files, records: seq<Record>, io: Weather, hourOf: HourReader, s: Str, d: Str)
    requires WritesSucceed(io) && GoodBatch(AcceptedIn(records, hourOf), hourOf) && ScriptName(s) && Plain(d)
    requires !Addresses(AcceptedIn(records, hourOf), s, d)
    ensures LookUp(ById(ListAt(Batch(f, records, io, hourOf), ScriptPath(s))), d)
      == LookUp(ById(ListAt(f, ScriptPath(s))), d)
  {
    BatchCases(f, records, io, hourOf, Summarizers());
    if AcceptedIn(records, hourOf) != [] {
      DatesByEffect(f, Batch(f, records, io, hourOf), io, AcceptedIn(records, hourOf), hourOf, Summarizers(), s, d);
    } else {
      assert Stored(f, ScriptPath(s)) == Stored(Batch(f, records, io, hourOf), ScriptPath(s));
    }
  }

  lemma ScriptsByEffect(f: Files, g: Files, io: Weather, accepted: seq<(Str, Entry)>, hourOf: HourReader,
                        sums: Str -> Summarizer, s: Str)
    requires BatchEffect(f, g, io, accepted, hourOf, sums) && s !in KeysOf(accepted)
    ensures LookUp(ById(ListAt(g, RootIndexPath())), s) == LookUp(ById(ListAt(f, RootIndexPath())), s)
  {}

  /** Whatever reads fail, a script that no record of a batch addresses keeps its row in the root file. */
  lemma OtherScripts(f: Files, records: seq<Record>, io: Weather, hourOf: HourReader, s: Str)
    requires WritesSucceed(io) && GoodBatch(AcceptedIn(records, hourOf), hourOf)
      && s !in KeysOf(AcceptedIn(records, hourOf))
    ensures LookUp(ById(ListAt(Batch(f, records, io, hourOf), RootIndexPath())), s)
      == LookUp(ById(ListAt(f, RootIndexPath())), s)
  {
    var g := Batch(f, records, io, hourOf);
    BatchCases(f, records, io, hourOf, Summarizers());
    if AcceptedIn(records, hourOf) != [] {
      ScriptsByEffect(f, g, io, AcceptedIn(records, hourOf), hourOf, Summarizers(), s);
    } else {
      assert Stored(f, RootIndexPath()) == Stored(g, RootIndexPath());
    }
  }

  // ---------------------------------------------------------------------------
  // Script rows agree with day files, whatever reads fail
  // ---------------------------------------------------------------------------

  /** Where both files are readable, the script's row of a date is the one its day file calls for. */
  ghost predicate Agrees(files: Files, s: Str, d: Str, sum: Summarizer) {
    Stored(files, ScriptPath(s)).Some? && Stored(files, DayPath(s, d)).Some? ==>
      LookUp(ById(ListAt(files, ScriptPath(s))), d) == sum(d, ListAt(files, DayPath(s, d)))
  }

  ghost predicate Derived(files: Files, sums: Str -> Summarizer) {
    forall s, d :: ScriptName(s) && Plain(d) ==> Agrees(files, s, d, sums(s))
  }

  lemma AgreesStep(f: Files, g: Files, io: Weather, accepted: seq<(Str, Entry)>, hourOf: HourReader,
                   sums: Str -> Summarizer, s: Str, d: Str)
    requires GoodBatch(accepted, hourOf) && BatchEffect(f, g, io, accepted, hourOf, sums)
    requires ScriptName(s) && Plain(d) && Agrees(f, s, d, sums(s))
    ensures Agrees(g, s, d, sums(s))
  {
    UnaddressedUntouched(accepted, s, d, hourOf);
    if !CanRead(f, io, ScriptPath(s)) { UnreadByEffect(f, g, io, accepted, hourOf, sums, ScriptPath(s)); }
    if !CanRead(f, io, DayPath(s, d)) { UnreadByEffect(f, g, io, accepted, hourOf, sums, DayPath(s, d)); }
    if !Addresses(accepted, s, d) {
      DatesByEffect(f, g, io, accepted, hourOf, sums, s, d);
      assert SameAt(f, g, DayPath(s, d));
    } else {
      assert ScriptEffect(f, g, io, s, EntriesOf(accepted, s), hourOf, sums(s));
      assert Touches(DayPath(s, d), s, EntriesOf(accepted, s));
    }
  }

  lemma DerivedStep(f: Files, g: Files, io: Weather, accepted: seq<(Str, Entry)>, hourOf: HourReader,
                    sums: Str -> Summarizer)
    requires GoodBatch(accepted, hourOf) && BatchEffect(f, g, io, accepted, hourOf, sums) && Derived(f, sums)
    ensures Derived(g, sums)
  {
    forall s, d | ScriptName(s) && Plain(d) ensures Agrees(g, s, d, sums(s)) {
      AgreesStep(f, g, io, accepted, hourOf, sums, s, d);
    }
  }

  /** A run in which every batch meets its own weather. */
  function StormRun(files: Files, batches: seq<(seq<Record>, Weather)>, hourOf: HourReader): Files {
    if batches == [] then files
    else
      var (records, io) := batches[|batches| - 1];
      Batch(StormRun(files, batches[..|batches| - 1], hourOf), records, io, hourOf)
  }

  ghost predicate Storm(batches: seq<(seq<Record>, Weather)>, hourOf: HourReader) {
    forall i :: 0 <= i < |batches| ==>
      WritesSucceed(batches[i].1) && GoodBatch(AcceptedIn(batches[i].0, hourOf), hourOf)
  }

  lemma DerivedByContent(f: Files, g: Files, sums: Str -> Summarizer)
    requires Derived(f, sums) && forall p :: Stored(f, p) == Stored(g, p)
    ensures Derived(g, sums)
  {
    forall s, d | ScriptName(s) && Plain(d) ensures Agrees(g, s, d, sums(s)) { assert Agrees(f, s, d, sums(s)); }
  }

  lemma BatchDerived(f: Files, records: seq<Record>, io: Weather, hourOf: HourReader, sums: Str -> Summarizer)
    requires WritesSucceed(io) && GoodBatch(AcceptedIn(records, hourOf), hourOf)
    requires sums == Summarizers() && Derived(f, sums)
    ensures Derived(Batch(f, records, io, hourOf), sums)
  {
    var after, accepted := Batch(f, records, io, hourOf), AcceptedIn(records, hourOf);
    BatchCases(f, records, io, hourOf, sums);
    if accepted == [] {
      DerivedByContent(f, after, sums);
    } else {
      DerivedStep(f, after, io, accepted, hourOf, sums);
    }
  }

  /** Over every run, whatever reads fail, every script row stays the one its day file calls for. */
  lemma {:induction false} ScriptRowsStayDerived(files: Files, batches: seq<(seq<Record>, Weather)>, hourOf: HourReader,
                                                 sums: Str -> Summarizer)
    requires Storm(batches, hourOf) && sums == Summarizers() && Derived(files, sums)
    ensures Derived(StormRun(files, batches, hourOf), sums)
  {
    if batches == [] {
    } else {
      var front := batches[..|batches| - 1];
      var (records, io) := batches[|batches| - 1];
      ScriptRowsStayDerived(files, front, hourOf, sums);
      BatchDerived(StormRun(files, front, hourOf), records, io, hourOf, sums);
    }
  }

  lemma EmptyStoreDerived(sums: Str -> Summarizer)
    requires sums == Summarizers()
    ensures Derived(map[], sums)
  {}

  /** In particular over every run from an empty store. */
  lemma ScriptRowsAlwaysDerived(batches: seq<(seq<Record>, Weather)>, hourOf: HourReader)
    requires Storm(batches, hourOf)
    ensures Derived(StormRun(map[], batches, hourOf), Summarizers())
  {
    EmptyStoreDerived(Summarizers());
    ScriptRowsStayDerived(map[], batches, hourOf, Summarizers());
  }

  // ---------------------------------------------------------------------------
  // How rows recover
  // ---------------------------------------------------------------------------

  /**
   * Whatever the store looks like, say after failed writes, a batch that addresses a date and can
   * read its files makes the rows above it agree again: the script's row with the day file and,
   * where the root can be read, the root's row with the script file.
   */
  lemma AddressedRowsRecover(f: Files, records: seq<Record>, io: Weather, hourOf: HourReader, s: Str, d: Str)
    requires WritesSucceed(io) && GoodBatch(AcceptedIn(records, hourOf), hourOf) && ScriptName(s) && Plain(d)
    requires Addresses(AcceptedIn(records, hourOf), s, d)
    requires CanRead(f, io, ScriptPath(s)) && CanRead(f, io, DayPath(s, d))
    ensures
      var g := Batch(f, records, io, hourOf);
      && LookUp(ById(ListAt(g, ScriptPath(s))), d) == Summarizers()(s)(d, ListAt(g, DayPath(s, d)))
      && (CanRead(f, io, RootIndexPath()) ==> LookUp(ById(ListAt(g, RootIndexPath())), s) == RootRowOf(g, s))
  {
    BatchCases(f, records, io, hourOf, Summarizers());
    assert AcceptedIn(records, hourOf) != [];
    RecoveredByEffect(f, Batch(f, records, io, hourOf), io, AcceptedIn(records, hourOf), hourOf, Summarizers(), s, d);
  }

  lemma RecoveredByEffect(f: Files, g: Files, io: Weather, accepted: seq<(Str, Entry)>, hourOf: HourReader,
                          sums: Str -> Summarizer, s: Str, d: Str)
    requires BatchEffect(f, g, io, accepted, hourOf, sums) && Addresses(accepted, s, d)
    requires CanRead(f, io, ScriptPath(s)) && CanRead(f, io, DayPath(s, d))
    ensures LookUp(ById(ListAt(g, ScriptPath(s))), d) == sums(s)(d, ListAt(g, DayPath(s, d)))
    ensures CanRead(f, io, RootIndexPath()) ==> LookUp(ById(ListAt(g, RootIndexPath())), s) == RootRowOf(g, s)
  {
    assert ScriptEffect(f, g, io, s, EntriesOf(accepted, s), hourOf, sums(s));
  }

  // ---------------------------------------------------------------------------
  // When a batch rejects
  // ---------------------------------------------------------------------------

  /** Every accepted hour is a key, but script names may be anything non-blank. */
  ghost predicate GoodHours(accepted: seq<(Str, Entry)>, hourOf: HourReader) {
    forall i :: 0 <= i < |accepted| ==> Clean(accepted[i].0) && HourKey(accepted[i].1.hourStart, hourOf)
  }

  lemma NameOrThrow(s: Str)
    requires Clean(s)
    ensures ScriptName(s) <==> WellFormed(s)
    ensures ScriptIndexPath(s).None? <==> !WellFormed(s)
  {
    TrimOfTight(s);
    EncodeDefined(s);
  }

  lemma DayNeverThrows(st: State, rows: seq<Row>, s: Str, d: Str, entries: seq<Entry>, io: Weather, hourOf: HourReader)
    requires ScriptName(s) && GoodEntries(entries, hourOf) && DayPathOfDate(s, d, hourOf) == Some(DayPath(s, d))
    ensures EmitDay(st, rows, s, d, entries, io, hourOf).Done?
  {
    var got := ReadStrict(st, DayPath(s, d), io);
    if got.value.Some? {
      ToMapTabulates(got.value.value);
      ApplyEntriesTabulates(ToMap(got.value.value), ById(got.value.value), s, entries, hourOf);
    }
  }

  lemma {:induction false} DaysNeverThrow(st: State, rows: seq<Row>, s: Str, dates: seq<Str>, entries: seq<Entry>,
                                          io: Weather, hourOf: HourReader)
    requires ScriptName(s) && GoodDates(s, dates, entries, hourOf)
    ensures EmitDays(st, rows, s, dates, entries, io, hourOf).Done?
    decreases |dates|
  {
    if dates == [] {
    } else {
      var front, last := dates[..|dates| - 1], dates[|dates| - 1];
      DaysNeverThrow(st, rows, s, front, entries, io, hourOf);
      var mid := EmitDays(st, rows, s, front, entries, io, hourOf);
      DayNeverThrows(mid.state, mid.value, s, last, DayEntries(entries, last), io, hourOf);
    }
  }

  lemma ScriptThrows(st: State, root: Root, s: Str, entries: seq<Entry>, io: Weather, hourOf: HourReader)
    requires Clean(s) && GoodEntries(entries, hourOf)
    ensures EmitScript(st, root, s, entries, io, hourOf).Thrown? <==> !WellFormed(s)
  {
    NameOrThrow(s);
    if WellFormed(s) {
      GoodDatesIn(s, entries, hourOf);
      var got := ReadStrict(st, ScriptIndexPath(s).value, io);
      if got.value.Some? {
        DaysNeverThrow(got.state, ToMap(got.value.value), s, DatesIn(entries), entries, io, hourOf);
      }
    }
  }

  lemma {:induction false} ScriptsThrow(st: State, root: Root, scripts: seq<Str>, accepted: seq<(Str, Entry)>,
                                        io: Weather, hourOf: HourReader)
    requires forall s :: s in scripts ==> Clean(s) && GoodEntries(EntriesOf(accepted, s), hourOf)
    ensures EmitScripts(st, root, scripts, accepted, io, hourOf).Thrown? <==> exists s :: s in scripts && !WellFormed(s)
    decreases |scripts|
  {
    if scripts == [] {
    } else {
      var front, last := scripts[..|scripts| - 1], scripts[|scripts| - 1];
      assert scripts == front + [last];
      ScriptsThrow(st, root, front, accepted, io, hourOf);
      var mid := EmitScripts(st, root, front, accepted, io, hourOf);
      if mid.Done? { ScriptThrows(mid.state, mid.value, last, EntriesOf(accepted, last), io, hourOf); }
    }
  }

  lemma GoodHoursIn(accepted: seq<(Str, Entry)>, hourOf: HourReader, s: Str)
    requires GoodHours(accepted, hourOf) && s in KeysOf(accepted)
    ensures Clean(s) && GoodEntries(EntriesOf(accepted, s), hourOf)
  {
    KeysOfMembers(accepted);
    EntriesOfMembers(accepted, s);
    var entries := EntriesOf(accepted, s);
    forall i | 0 <= i < |entries| ensures HourKey(entries[i].hourStart, hourOf) {
      assert entries[i] in entries;
    }
  }

  lemma ScriptsOfBatch(accepted: seq<(Str, Entry)>)
    ensures (exists s :: s in KeysOf(accepted) && !WellFormed(s))
      <==> exists i :: 0 <= i < |accepted| && !WellFormed(accepted[i].0)
  {
    KeysOfMembers(accepted);
    if i :| 0 <= i < |accepted| && !WellFormed(accepted[i].0) {
      assert (accepted[i].0, accepted[i].1) in accepted;
      assert accepted[i].0 in KeysOf(accepted);
    }
  }

  /** In any weather, a batch rejects exactly when one of its scripts holds a lone surrogate. */
  lemma RejectsOnLoneSurrogates(st: State, records: seq<Record>, io: Weather, hourOf: HourReader)
    requires io.canRead && GoodHours(AcceptedIn(records, hourOf), hourOf)
    ensures
      var accepted := AcceptedIn(records, hourOf);
      Emit(st, records, io, hourOf).Thrown? <==> exists i :: 0 <= i < |accepted| && !WellFormed(accepted[i].0)
  {
    var accepted := AcceptedIn(records, hourOf);
    if accepted != [] {
      ScriptsOfBatch(accepted);
      forall s | s in KeysOf(accepted) ensures Clean(s) && GoodEntries(EntriesOf(accepted, s), hourOf) {
        GoodHoursIn(accepted, hourOf, s);
      }
      var skipped := st.(errors := st.errors + SkipErrors(records, LocatorOf(hourOf)));
      var got := ReadStrict(skipped, RootIndexPath(), io);
      var rows := ToMap(match got.value case Some(rows) => rows case None => []);
      ScriptsThrow(got.state, Root(rows, false), KeysOf(accepted), accepted, io, hourOf);
    }
  }

  /** What a located record is keyed by: a non-blank script and the hour bucket of some instant. */
  lemma LocatedKey(record: Record, host: Host)
    requires Locate(record, HourReaderOf(host)).Some?
    ensures
      var (script, hour) := Locate(record, HourReaderOf(host)).value;
      && Clean(script)
      && exists t :: hour == HourOf(t).hourStart && (FourDigitYear(HourFloor(t)) ==> HourKey(hour, HourReaderOf(host)))
  {
    var hourOf := HourReaderOf(host);
    var fromId := match ReadString(record.id) case Some(id) => ParseId(id, hourOf) case None => None;
    if fromId.Some? { TrimIsTight(ReadString(record.id).value[..LastSlash(ReadString(record.id).value)]); }
    var rawHour := OrElse(ReadString(record.hourStart), if fromId.Some? then Some(fromId.value.1) else None).value;
    var t := DateParse(rawHour, host).value;
    if FourDigitYear(HourFloor(t)) { BucketIsHourKey(t, host); }
    assert Locate(record, hourOf).value.1 == HourOf(t).hourStart;
  }

  /** Where the first script that cannot be encoded stands. */
  function FirstIllFormed(scripts: seq<Str>): (k: nat)
    ensures k <= |scripts| && forall i :: 0 <= i < k ==> WellFormed(scripts[i])
    ensures k < |scripts| ==> !WellFormed(scripts[k])
  {
    if scripts == [] || !WellFormed(scripts[0]) then 0 else 1 + FirstIllFormed(scripts[1..])
  }

  /** What was done before the call rejected: the scripts seen before the offending one, and nothing else. */
  lemma ScriptsBeforeRejection(st: State, root: Root, accepted: seq<(Str, Entry)>, io: Weather, hourOf: HourReader,
                               table: map<Str, Row>) returns (k: nat, done: Outcome<Root>, table': map<Str, Row>)
    requires WritesSucceed(io) && GoodHours(accepted, hourOf) && Tabulates(root.rows, table)
    requires exists s :: s in KeysOf(accepted) && !WellFormed(s)
    ensures k == FirstIllFormed(KeysOf(accepted)) && k < |KeysOf(accepted)|
    ensures EmitScripts(st, root, KeysOf(accepted), accepted, io, hourOf) == Thrown(done.state)
    ensures ScriptsEffect(st.files, done.state.files, io, KeysOf(accepted)[..k], accepted, hourOf, Summarizers(), table,
                          table')
    ensures GoodScripts(KeysOf(accepted)[..k], accepted, hourOf)
  {
    var scripts := KeysOf(accepted);
    k := FirstIllFormed(scripts);
    GoodPrefix(accepted, hourOf, k);
    table' := EmitScriptsEffect(st, root, table, scripts[..k], accepted, io, hourOf, Summarizers());
    done := EmitScripts(st, root, scripts[..k], accepted, io, hourOf);
    EmitScriptsStep(st, root, scripts, k, accepted, io, hourOf);
    GoodHoursIn(accepted, hourOf, scripts[k]);
    NameOrThrow(scripts[k]);
    ThrowingScript(st, root, scripts, k + 1, accepted, io, hourOf);
  }

  lemma GoodPrefix(accepted: seq<(Str, Entry)>, hourOf: HourReader, k: nat)
    requires GoodHours(accepted, hourOf) && k <= |KeysOf(accepted)|
    requires forall i :: 0 <= i < k ==> WellFormed(KeysOf(accepted)[i])
    ensures GoodScripts(KeysOf(accepted)[..k], accepted, hourOf)
  {
    var scripts := KeysOf(accepted);
    KeysOfMembers(accepted);
    forall s | s in scripts[..k] ensures ScriptName(s) && GoodEntries(EntriesOf(accepted, s), hourOf) {
      var i :| 0 <= i < k && scripts[i] == s;
      GoodHoursIn(accepted, hourOf, s);
      NameOrThrow(s);
    }
  }

  /**
   * A rejected batch leaves the levels torn, whatever reads failed: the root file is as it was, the
   * scripts first seen before the offending one have their whole effect, and no other file changed.
   */
  lemma RejectedBatchTearsRoot(st: State, records: seq<Record>, io: Weather, hourOf: HourReader)
    requires WritesSucceed(io) && GoodHours(AcceptedIn(records, hourOf), hourOf)
      && Emit(st, records, io, hourOf).Thrown?
    ensures
      var accepted, after := AcceptedIn(records, hourOf), Emit(st, records, io, hourOf).state.files;
      var before := KeysOf(accepted)[..FirstIllFormed(KeysOf(accepted))];
      && |before| < |KeysOf(accepted)| && SameAt(st.files, after, RootIndexPath())
      && (forall s :: s in before ==>
          ScriptEffect(st.files, after, io, s, EntriesOf(accepted, s), hourOf, Summarizers()(s)))
      && (forall p :: !TouchedByOne(p, before, accepted) ==> SameAt(st.files, after, p))
  {
    var accepted := AcceptedIn(records, hourOf);
    var skipped := st.(errors := st.errors + SkipErrors(records, LocatorOf(hourOf)));
    RejectsOnLoneSurrogates(st, records, io, hourOf);
    ScriptsOfBatch(accepted);
    RootRead(skipped, io);
    ToMapTabulates(StoredRows(skipped, io));
    var k, done, table :=
      ScriptsBeforeRejection(ReadStrict(skipped, RootIndexPath(), io).state, StartRoot(skipped, io), accepted, io,
                                                 hourOf, ById(StoredRows(skipped, io)));
    RootUntouchedBy(KeysOf(accepted)[..k], accepted, hourOf);
  }

  lemma RootUntouchedBy(scripts: seq<Str>, accepted: seq<(Str, Entry)>, hourOf: HourReader)
    requires GoodScripts(scripts, accepted, hourOf)
    ensures !TouchedByOne(RootIndexPath(), scripts, accepted)
  {
    forall s | s in scripts ensures !Touches(RootIndexPath(), s, EntriesOf(accepted, s)) {
      if Touches(RootIndexPath(), s, EntriesOf(accepted, s)) {
        TouchesApart(s, s, EntriesOf(accepted, s), EntriesOf(accepted, s), RootIndexPath(), hourOf);
      }
    }
  }

  /** An input on which the root really falls behind: an upsert and then an ill-formed script, into an empty store. */
  lemma TornByTwoRecords(first: Record, second: Record, a: Str, h: Str, bad: (Str, Str), io: Weather,
                         hourOf: HourReader)
    requires Fair(io) && ScriptName(a) && HourKey(h, hourOf) && !first.deleted
    requires Locate(first, hourOf) == Some((a, h)) && Locate(second, hourOf) == Some(bad)
    requires Clean(bad.0) && !WellFormed(bad.0)
    ensures
      var result := Emit(State(map[], 0, [], []), [first, second], io, hourOf);
      && result.Thrown? && RootIndexPath() !in result.state.files
      && ListAt(result.state.files, ScriptPath(a)) != []
  {
    var st, entry := State(map[], 0, [], []), Entry(h, first);
    var accepted := [(a, entry), (bad.0, Entry(bad.1, second))];
    NameOrThrow(a);
    NameOrThrow(bad.0);
    TwoAccepted(first, second, a, h, bad, hourOf);
    var got := ReadStrict(st, RootIndexPath(), io);
    assert ToMap([]) == [];
    assert GoodEntries([entry], hourOf);
    var table := EmitScriptEffect(got.state, Root([], false), map[], a, [entry], io, hourOf, SummarizerOf(a));
    var mid := EmitScript(got.state, Root([], false), a, [entry], io, hourOf);
    TwoScripts(got.state, Root([], false), a, bad.0, accepted, io, hourOf);
    FirstScript(mid.state.files, io, a, entry, hourOf, SummarizerOf(a), table);
  }

  lemma TwoScripts(st: State, root: Root, a: Str, b: Str, accepted: seq<(Str, Entry)>, io: Weather, hourOf: HourReader)
    ensures EmitScripts(st, root, [a, b], accepted, io, hourOf)
      == match EmitScript(st, root, a, EntriesOf(accepted, a), io, hourOf)
         case Thrown(s) => Thrown(s)
         case Done(s, r) => EmitScript(s, r, b, EntriesOf(accepted, b), io, hourOf)
  {
    EmitScriptsStep(st, root, [a, b], 0, accepted, io, hourOf);
    EmitScriptsStep(st, root, [a, b], 1, accepted, io, hourOf);
    assert [a, b][..2] == [a, b] && [a, b][..0] == [] && [a, b][..1] == [a];
  }

  lemma TwoAccepted(first: Record, second: Record, a: Str, h: Str, bad: (Str, Str), hourOf: HourReader)
    requires Locate(first, hourOf) == Some((a, h)) && Locate(second, hourOf) == Some(bad) && a != bad.0
    ensures
      var accepted := [(a, Entry(h, first)), (bad.0, Entry(bad.1, second))];
      && Accepted([first, second], LocatorOf(hourOf)) == accepted
        && SkipErrors([first, second], LocatorOf(hourOf)) == []
      && KeysOf(accepted) == [a, bad.0] && EntriesOf(accepted, a) == [Entry(h, first)]
  {
    AcceptedPair(first, second, LocatorOf(hourOf), (a, h), bad);
    KeysOfPair((a, Entry(h, first)), (bad.0, Entry(bad.1, second)));
  }

  lemma AcceptedPair(first: Record, second: Record, locate: Locator, a: (Str, Str), b: (Str, Str))
    requires locate(first) == Some(a) && locate(second) == Some(b)
    ensures Accepted([first, second], locate) == [(a.0, Entry(a.1, first)), (b.0, Entry(b.1, second))]
    ensures SkipErrors([first, second], locate) == []
  {
    var records := [first, second];
    AcceptedSnoc(records, 0, locate);
    AcceptedSnoc(records, 1, locate);
    assert records[..2] == records && records[..0] == [];
  }

  lemma KeysOfPair(first: (Str, Entry), second: (Str, Entry))
    requires first.0 != second.0
    ensures KeysOf([first, second]) == [first.0, second.0] && EntriesOf([first, second], first.0) == [first.1]
  {
    KeysOfEmpty([]);
    KeysOfSnoc([], first);
    assert [] + [first] == [first] && [first] + [second] == [first, second];
    KeysOfSnoc([first], second);
    assert [first][..0] == [] && [first, second][..1] == [first];
  }

  /** One upsert into an empty store: its script file lists its date and the root is untouched. */
  lemma FirstScript(g: Files, io: Weather, a: Str, entry: Entry, hourOf: HourReader, sum: Summarizer,
                    table: map<Str, Row>)
    requires Fair(io) && ScriptName(a) && HourKey(entry.hourStart, hourOf) && !entry.record.deleted
    requires Summarizes(sum) && OneScript(map[], g, io, a, [entry], hourOf, sum, map[], table)
    ensures RootIndexPath() !in g && ListAt(g, ScriptPath(a)) != []
  {
    var d := DatePart(entry.hourStart);
    HourKeyFacts(entry.hourStart, a, entry.record, hourOf);
    PathsDiffer(a, d, a, d);
    OneDate(entry);
    assert d in DatesIn([entry]);
    assert SameAt(map[], g, RootIndexPath());
    var day := TableApply(map[], a, [entry], ChangesOf(hourOf));
    assert [entry][..0] == [] && entry.hourStart in day;
    assert DayEffect(map[], g, io, a, d, [entry], hourOf);
    EmptyTable(ListAt(g, DayPath(a, d)), day);
    assert LookUp(ById(ListAt(g, ScriptPath(a))), d) == sum(d, ListAt(g, DayPath(a, d)));
  }

  lemma OneDate(entry: Entry)
    ensures DatesIn([entry]) == [DatePart(entry.hourStart)]
    ensures DayEntries([entry], DatePart(entry.hourStart)) == [entry]
  {
    var pair := (DatePart(entry.hourStart), entry);
    assert Dated([entry]) == [] + [pair];
    KeysOfEmpty([]);
    KeysOfSnoc([], pair);
    assert EntriesOf([], pair.0) == [];
  }
}
