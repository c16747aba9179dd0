/**
 * What a rollup batch reports: whatever reads and writes fail, its result counts every write once and lists
 * failures that happened, and every index the batch is about was written or is listed
 * (packages/cloudflare/src/emit-auxiliary-files.ts:209-368).
 */
module RollupLedger {
  import opened JsStrings
  import opened RollupPaths
  import opened RollupRows
  import opened RollupEmitter
  import opened RollupEffects
  import RollupRecords
  import RollupRuns

  // ---------------------------------------------------------------------------
  // Between two states of a batch
  // ---------------------------------------------------------------------------

  function WritesIn(calls: seq<Call>): nat {
    if calls == [] then 0
    else WritesIn(calls[..|calls| - 1]) + if calls[|calls| - 1].DidWrite? then 1 else 0
  }

  predicate Garbled(files: map<Str, Content>, p: Str) { p in files && files[p].Garbled? }

  /** The failure happened: the write was refused, or the file could not be read or did not parse. */
  predicate Happened(error: (Str, Failure), files: map<Str, Content>, io: Weather) {
    match error.1
    case WriteFailed => !io.writeOk(error.0)
    case ReadFailed => !io.readOk(error.0) || Garbled(files, error.0)
    case _ => false
  }

  /** From one state to a later one: nothing is forgotten, writes are counted, failures happened. */
  ghost predicate Ledger(a: State, b: State, io: Weather) {
    && a.calls <= b.calls && a.errors <= b.errors
    && b.written + WritesIn(a.calls) == a.written + WritesIn(b.calls)
    && (forall p :: Garbled(b.files, p) ==> Garbled(a.files, p))
    && (forall i :: |a.errors| <= i < |b.errors| ==> Happened(b.errors[i], a.files, io))
  }

  /** The index was written, or is listed as failed. */
  predicate Accounted(st: State, p: Str) {
    DidWrite(p) in st.calls || (p, WriteFailed) in st.errors || (p, ReadFailed) in st.errors
  }

  lemma LedgerTrans(a: State, b: State, c: State, io: Weather)
    requires Ledger(a, b, io) && Ledger(b, c, io)
    ensures Ledger(a, c, io)
  {}

  lemma StaysAccounted(a: State, b: State, io: Weather, p: Str)
    requires Ledger(a, b, io) && Accounted(a, p)
    ensures Accounted(b, p)
  {
    assert forall call :: call in a.calls ==> call in b.calls;
    assert forall error :: error in a.errors ==> error in b.errors;
  }

  lemma WritesSnoc(calls: seq<Call>, call: Call)
    ensures WritesIn(calls + [call]) == WritesIn(calls) + if call.DidWrite? then 1 else 0
  {
    assert (calls + [call])[..|calls|] == calls;
  }

  lemma ReadLedger(st: State, p: Str, io: Weather)
    ensures
      var got := ReadStrict(st, p, io);
      && Ledger(st, got.state, io) && got.state.files == st.files
      && (got.value.None? ==> Accounted(got.state, p))
      && (got.value.None? <==> !io.readOk(p) || Garbled(st.files, p))
  {
    WritesSnoc(st.calls, DidRead(p));
    var errors := st.errors + [(p, ReadFailed)];
    assert errors[|st.errors|] == (p, ReadFailed);
  }

  lemma WriteLedger(st: State, p: Str, rows: seq<Row>, io: Weather)
    ensures Ledger(st, SafeWrite(st, p, rows, io), io) && Accounted(SafeWrite(st, p, rows, io), p)
  {
    WritesSnoc(st.calls, DidWrite(p));
    assert (st.calls + [DidWrite(p)])[|st.calls|] == DidWrite(p);
    assert (st.errors + [(p, WriteFailed)])[|st.errors|] == (p, WriteFailed);
  }

  // ---------------------------------------------------------------------------
  // Days, scripts and the root
  // ---------------------------------------------------------------------------

  lemma DayLedger(st: State, rows: seq<Row>, s: Str, d: Str, entries: seq<Entry>, io: Weather, hourOf: HourReader)
    ensures
      var out := EmitDay(st, rows, s, d, entries, io, hourOf);
      && Ledger(st, out.state, io)
      && (out.Done? ==> DayPathOfDate(s, d, hourOf).Some? && Accounted(out.state, DayPathOfDate(s, d, hourOf).value))
  {
    var path := DayPathOfDate(s, d, hourOf);
    if path.Some? {
      ReadLedger(st, path.value, io);
      var got := ReadStrict(st, path.value, io);
      if got.value.Some? {
        var hourRows := ApplyEntries(ToMap(got.value.value), s, entries, hourOf);
        if hourRows.Some? {
          var hours := SortDesc(hourRows.value);
          WriteLedger(got.state, path.value, hours, io);
          LedgerTrans(st, got.state, SafeWrite(got.state, path.value, hours, io), io);
        }
      }
    }
  }

  /** All of these dates have an index that is accounted for. */
  ghost predicate DatesAccounted(st: State, s: Str, dates: seq<Str>, hourOf: HourReader) {
    forall i :: 0 <= i < |dates| ==>
      DayPathOfDate(s, dates[i], hourOf).Some? && Accounted(st, DayPathOfDate(s, dates[i], hourOf).value)
  }

  lemma DatesStay(a: State, b: State, s: Str, dates: seq<Str>, io: Weather, hourOf: HourReader)
    requires Ledger(a, b, io) && DatesAccounted(a, s, dates, hourOf)
    ensures DatesAccounted(b, s, dates, hourOf)
  {
    forall i | 0 <= i < |dates| ensures Accounted(b, DayPathOfDate(s, dates[i], hourOf).value) {
      StaysAccounted(a, b, io, DayPathOfDate(s, dates[i], hourOf).value);
    }
  }

  lemma OneMoreDate(a: State, b: State, s: Str, dates: seq<Str>, io: Weather, hourOf: HourReader)
    requires dates != [] && Ledger(a, b, io) && DatesAccounted(a, s, dates[..|dates| - 1], hourOf)
    requires DatesAccounted(b, s, [dates[|dates| - 1]], hourOf)
    ensures DatesAccounted(b, s, dates, hourOf)
  {
    var front := dates[..|dates| - 1];
    DatesStay(a, b, s, front, io, hourOf);
    forall i | 0 <= i < |dates|
      ensures DayPathOfDate(s, dates[i], hourOf).Some? && Accounted(b, DayPathOfDate(s, dates[i], hourOf).value)
    {
      if i < |front| { assert dates[i] == front[i]; } else { assert dates[i] == [dates[|dates| - 1]][0]; }
    }
  }

  lemma {:induction false} DaysLedger(st: State, rows: seq<Row>, s: Str, dates: seq<Str>, entries: seq<Entry>,
                                      io: Weather, hourOf: HourReader)
    ensures
      var out := EmitDays(st, rows, s, dates, entries, io, hourOf);
      Ledger(st, out.state, io) && (out.Done? ==> DatesAccounted(out.state, s, dates, hourOf))
    decreases |dates|
  {
    if dates == [] {
    } else {
      var front, last := dates[..|dates| - 1], dates[|dates| - 1];
      DaysLedger(st, rows, s, front, entries, io, hourOf);
      var mid := EmitDays(st, rows, s, front, entries, io, hourOf);
      if mid.Done? {
        DayLedger(mid.state, mid.value, s, last, EntriesOf(Dated(entries), last), io, hourOf);
        var out := EmitDay(mid.state, mid.value, s, last, EntriesOf(Dated(entries), last), io, hourOf);
        LedgerTrans(st, mid.state, out.state, io);
        if out.Done? { OneMoreDate(mid.state, out.state, s, dates, io, hourOf); }
      }
    }
  }

  /** The script's index is accounted for; if it could be read, so are those of its dates. */
  ghost predicate ScriptAccounted(before: map<Str, Content>, st: State, s: Str, entries: seq<Entry>, io: Weather,
                                  hourOf: HourReader)
  {
    && ScriptIndexPath(s).Some? && Accounted(st, ScriptIndexPath(s).value)
    && (io.readOk(ScriptIndexPath(s).value) && !Garbled(before, ScriptIndexPath(s).value) ==>
         DatesAccounted(st, s, KeysOf(Dated(entries)), hourOf))
  }

  lemma ScriptLedger(st: State, root: Root, s: Str, entries: seq<Entry>, io: Weather, hourOf: HourReader)
    ensures
      var out := EmitScript(st, root, s, entries, io, hourOf);
      && Ledger(st, out.state, io)
      && (out.Done? ==>
           && ScriptAccounted(st.files, out.state, s, entries, io, hourOf)
           && (out.value.changed <==>
                root.changed
                || (io.readOk(ScriptIndexPath(s).value) && !Garbled(st.files, ScriptIndexPath(s).value))))
  {
    var path := ScriptIndexPath(s);
    if path.Some? {
      ReadLedger(st, path.value, io);
      var got := ReadStrict(st, path.value, io);
      if got.value.Some? {
        var dates := KeysOf(Dated(entries));
        DaysLedger(got.state, ToMap(got.value.value), s, dates, entries, io, hourOf);
        var days := EmitDays(got.state, ToMap(got.value.value), s, dates, entries, io, hourOf);
        LedgerTrans(st, got.state, days.state, io);
        if days.Done? {
          var rows := SortDesc(days.value);
          var end := SafeWrite(days.state, path.value, rows, io);
          WriteLedger(days.state, path.value, rows, io);
          LedgerTrans(st, days.state, end, io);
          DatesStay(days.state, end, s, dates, io, hourOf);
        }
      }
    }
  }

  /** All of these scripts, with their dates, are accounted for. */
  ghost predicate ScriptsAccounted(before: map<Str, Content>, st: State, scripts: seq<Str>,
                                   accepted: seq<(Str, Entry)>, io: Weather, hourOf: HourReader)
  {
    forall i :: 0 <= i < |scripts| ==>
      ScriptAccounted(before, st, scripts[i], EntriesOf(accepted, scripts[i]), io, hourOf)
  }

  predicate Readable(files: map<Str, Content>, s: Str, io: Weather) {
    ScriptIndexPath(s).Some? && io.readOk(ScriptIndexPath(s).value) && !Garbled(files, ScriptIndexPath(s).value)
  }

  predicate AnyReadable(files: map<Str, Content>, scripts: seq<Str>, io: Weather) {
    exists i :: 0 <= i < |scripts| && Readable(files, scripts[i], io)
  }

  lemma ScriptStays(before: map<Str, Content>, a: State, b: State, s: Str, entries: seq<Entry>, io: Weather,
                    hourOf: HourReader)
    requires Ledger(a, b, io) && ScriptAccounted(before, a, s, entries, io, hourOf)
    ensures ScriptAccounted(before, b, s, entries, io, hourOf)
  {
    StaysAccounted(a, b, io, ScriptIndexPath(s).value);
    if Readable(before, s, io) { DatesStay(a, b, s, KeysOf(Dated(entries)), io, hourOf); }
  }

  lemma ScriptsStay(before: map<Str, Content>, a: State, b: State, scripts: seq<Str>, accepted: seq<(Str, Entry)>,
                    io: Weather, hourOf: HourReader)
    requires Ledger(a, b, io) && ScriptsAccounted(before, a, scripts, accepted, io, hourOf)
    ensures ScriptsAccounted(before, b, scripts, accepted, io, hourOf)
  {
    forall i | 0 <= i < |scripts|
      ensures ScriptAccounted(before, b, scripts[i], EntriesOf(accepted, scripts[i]), io, hourOf)
    {
      ScriptStays(before, a, b, scripts[i], EntriesOf(accepted, scripts[i]), io, hourOf);
    }
  }

  lemma OneMoreScript(before: map<Str, Content>, a: State, b: State, scripts: seq<Str>,
                      accepted: seq<(Str, Entry)>, io: Weather, hourOf: HourReader)
    requires scripts != [] && Ledger(a, b, io)
    requires ScriptsAccounted(before, a, scripts[..|scripts| - 1], accepted, io, hourOf)
    requires
      var last := scripts[|scripts| - 1];
      ScriptAccounted(before, b, last, EntriesOf(accepted, last), io, hourOf)
    ensures ScriptsAccounted(before, b, scripts, accepted, io, hourOf)
  {
    var front := scripts[..|scripts| - 1];
    ScriptsStay(before, a, b, front, accepted, io, hourOf);
    forall i | 0 <= i < |scripts|
      ensures ScriptAccounted(before, b, scripts[i], EntriesOf(accepted, scripts[i]), io, hourOf)
    {
      if i < |front| { assert scripts[i] == front[i]; }
    }
  }

  lemma ScriptSince(before: map<Str, Content>, middle: map<Str, Content>, st: State, s: Str, entries: seq<Entry>,
                    io: Weather, hourOf: HourReader)
    requires ScriptAccounted(middle, st, s, entries, io, hourOf)
    requires forall p :: Garbled(middle, p) ==> Garbled(before, p)
    ensures ScriptAccounted(before, st, s, entries, io, hourOf)
  {}

  lemma {:induction false} ScriptsLedger(st: State, root: Root, scripts: seq<Str>, accepted: seq<(Str, Entry)>,
                                         io: Weather, hourOf: HourReader)
    ensures
      var out := EmitScripts(st, root, scripts, accepted, io, hourOf);
      && Ledger(st, out.state, io)
      && (out.Done? ==>
           && ScriptsAccounted(st.files, out.state, scripts, accepted, io, hourOf)
           && (root.changed || AnyReadable(st.files, scripts, io) ==> out.value.changed))
    decreases |scripts|
  {
    if scripts == [] {
    } else {
      var front, last := scripts[..|scripts| - 1], scripts[|scripts| - 1];
      ScriptsLedger(st, root, front, accepted, io, hourOf);
      var mid := EmitScripts(st, root, front, accepted, io, hourOf);
      if mid.Done? {
        var entries := EntriesOf(accepted, last);
        var out := EmitScript(mid.state, mid.value, last, entries, io, hourOf);
        ScriptLedger(mid.state, mid.value, last, entries, io, hourOf);
        LedgerTrans(st, mid.state, out.state, io);
        if out.Done? {
          ScriptSince(st.files, mid.state.files, out.state, last, entries, io, hourOf);
          OneMoreScript(st.files, mid.state, out.state, scripts, accepted, io, hourOf);
          if AnyReadable(st.files, scripts, io) { ReadableSoFar(st.files, scripts, io); }
        }
      }
    }
  }

  lemma ReadableSoFar(files: map<Str, Content>, scripts: seq<Str>, io: Weather)
    requires scripts != [] && AnyReadable(files, scripts, io)
    ensures Readable(files, scripts[|scripts| - 1], io) || AnyReadable(files, scripts[..|scripts| - 1], io)
  {
    var front := scripts[..|scripts| - 1];
    var i :| 0 <= i < |scripts| && Readable(files, scripts[i], io);
    if i < |front| { assert front[i] == scripts[i]; }
  }

  // ---------------------------------------------------------------------------
  // The batch
  // ---------------------------------------------------------------------------

  lemma AcceptedLedger(st: State, accepted: seq<(Str, Entry)>, io: Weather, hourOf: HourReader)
    ensures
      var out := EmitAccepted(st, accepted, io, hourOf);
      && Ledger(st, out.state, io)
      && (out.Done? ==>
           && ScriptsAccounted(st.files, out.state, KeysOf(accepted), accepted, io, hourOf)
           && (AnyReadable(st.files, KeysOf(accepted), io) ==> Accounted(out.state, RootIndexPath())))
  {
    var path, scripts := RootIndexPath(), KeysOf(accepted);
    var got := ReadStrict(st, path, io);
    ReadLedger(st, path, io);
    var rows := ToMap(match got.value case Some(rows) => rows case None => []);
    ScriptsLedger(got.state, Root(rows, false), scripts, accepted, io, hourOf);
    var mid := EmitScripts(got.state, Root(rows, false), scripts, accepted, io, hourOf);
    LedgerTrans(st, got.state, mid.state, io);
    if mid.Done? {
      if got.value.None? {
        StaysAccounted(got.state, mid.state, io, path);
      } else if mid.value.changed {
        var end := SafeWrite(mid.state, path, SortDesc(mid.value.rows), io);
        WriteLedger(mid.state, path, SortDesc(mid.value.rows), io);
        LedgerTrans(st, mid.state, end, io);
        ScriptsStay(st.files, mid.state, end, scripts, accepted, io, hourOf);
      }
    }
  }

  lemma NothingLedger(st: State, io: Weather)
    ensures Ledger(st, EmitNothing(st, io), io)
  {
    var path := RootIndexPath();
    ReadLedger(st, path, io);
    if io.readOk(path) {
      var after := st.(calls := st.calls + [DidRead(path)]);
      WritesSnoc(st.calls, DidRead(path));
      WriteLedger(after, path, [], io);
      LedgerTrans(st, after, SafeWrite(after, path, [], io), io);
    }
  }

  /**
   * Whatever calls fail, and even when the batch rejects, it counts each of its writes once, reports each
   * record about no hour once, and apart from those reports only failures that happened.
   */
  lemma BatchReports(f: map<Str, Content>, records: seq<Record>, io: Weather, host: Host)
    requires io.canRead
    ensures
      var st, skipped := Emit(State(f, 0, [], []), records, io, HourReaderOf(host)).state,
        RollupRecords.Unnamed(records, host);
      && st.written == WritesIn(st.calls) && skipped <= |st.errors|
      && (forall i :: 0 <= i < skipped ==> st.errors[i] == (RootIndexPath(), Skipped))
      && (forall i :: skipped <= i < |st.errors| ==> Happened(st.errors[i], f, io))
  {
    var start := State(f, 0, [], []);
    if records == [] {
      NothingLedger(start, io);
    } else {
      RollupRecords.SkippedAreUnnamed(records, host);
      var hourOf := HourReaderOf(host);
      var errors := SkipErrors(records, LocatorOf(hourOf));
      assert [] + errors == errors;
      AcceptedLedger(start.(errors := errors), Accepted(records, LocatorOf(hourOf)), io, hourOf);
    }
  }

  lemma NothingAccounted(f: map<Str, Content>, io: Weather)
    ensures
      var root := RootIndexPath();
      Accounted(EmitNothing(State(f, 0, [], []), io), root) <==> !io.readOk(root) || root !in f || f[root] == Blank
  {
    var st, root := State(f, 0, [], []), RootIndexPath();
    if !io.readOk(root) {
      assert (st.errors + [(root, ReadFailed)])[0] == (root, ReadFailed);
    } else {
      WriteLedger(st.(calls := st.calls + [DidRead(root)]), root, [], io);
    }
  }

  /** A batch without records has written the root index, or lists it as failed, unless it found one there. */
  lemma RootAccounted(f: map<Str, Content>, io: Weather, hourOf: HourReader)
    requires io.canRead
    ensures
      var st, root := Emit(State(f, 0, [], []), [], io, hourOf).state, RootIndexPath();
      Accounted(st, root) <==> !io.readOk(root) || root !in f || f[root] == Blank
  {
    NothingAccounted(f, io);
  }

  lemma {:induction false} NamedIsAccepted(records: seq<Record>, i: nat, s: Str, h: Str, host: Host)
    requires i < |records| && RollupRecords.Names(records[i], s, h, host)
    ensures (s, Entry(h, records[i])) in RollupRuns.AcceptedIn(records, HourReaderOf(host))
  {
    RollupRecords.AcceptedSnoc(records, HourReaderOf(host));
    if i == |records| - 1 {
      RollupRecords.LocateIff(records[i], s, h, host);
    } else {
      NamedIsAccepted(records[..|records| - 1], i, s, h, host);
    }
  }

  lemma NamedGroups(accepted: seq<(Str, Entry)>, s: Str, entry: Entry)
    requires (s, entry) in accepted
    ensures s in KeysOf(accepted) && DatePart(entry.hourStart) in KeysOf(Dated(EntriesOf(accepted, s)))
  {
    var entries := EntriesOf(accepted, s);
    KeysOfMembers(accepted);
    EntriesOfMembers(accepted, s);
    DatedMembers(entries);
    KeysOfMembers(Dated(entries));
    assert (DatePart(entry.hourStart), entry) in Dated(entries);
  }

  /**
   * Every record about an hour has its script's index written or listed as failed, unless the batch rejects.
   * Where that index can be read, so are the index of the hour's date and the root index.
   */
  lemma IndexesAccounted(f: map<Str, Content>, records: seq<Record>, i: nat, s: Str, h: Str, io: Weather, host: Host)
    requires io.canRead && i < |records| && RollupRecords.Names(records[i], s, h, host)
    ensures
      var out := Emit(State(f, 0, [], []), records, io, HourReaderOf(host));
      var day := DayPathOfDate(s, DatePart(h), HourReaderOf(host));
      out.Done? ==>
        && ScriptIndexPath(s).Some? && Accounted(out.state, ScriptIndexPath(s).value)
        && (Readable(f, s, io) ==>
             Accounted(out.state, RootIndexPath()) && day.Some? && Accounted(out.state, day.value))
  {
    var hourOf := HourReaderOf(host);
    var errors, accepted := SkipErrors(records, LocatorOf(hourOf)), Accepted(records, LocatorOf(hourOf));
    assert [] + errors == errors;
    NamedIsAccepted(records, i, s, h, host);
    NamedGroups(accepted, s, Entry(h, records[i]));
    AcceptedLedger(State(f, 0, errors, []), accepted, io, hourOf);
    AccountedFor(f, EmitAccepted(State(f, 0, errors, []), accepted, io, hourOf).state, accepted, s, DatePart(h), io,
                 hourOf);
  }

  lemma AccountedFor(f: map<Str, Content>, st: State, accepted: seq<(Str, Entry)>, s: Str, d: Str, io: Weather,
                     hourOf: HourReader)
    requires s in KeysOf(accepted) && d in KeysOf(Dated(EntriesOf(accepted, s)))
    ensures Readable(f, s, io) ==> AnyReadable(f, KeysOf(accepted), io)
    ensures ScriptsAccounted(f, st, KeysOf(accepted), accepted, io, hourOf) ==>
      && ScriptIndexPath(s).Some? && Accounted(st, ScriptIndexPath(s).value)
      && (Readable(f, s, io) ==>
           DayPathOfDate(s, d, hourOf).Some? && Accounted(st, DayPathOfDate(s, d, hourOf).value))
  {
    var i :| 0 <= i < |KeysOf(accepted)| && KeysOf(accepted)[i] == s;
    var j :| 0 <= j < |KeysOf(Dated(EntriesOf(accepted, s)))| && KeysOf(Dated(EntriesOf(accepted, s)))[j] == d;
    assert ScriptsAccounted(f, st, KeysOf(accepted), accepted, io, hourOf) ==>
      ScriptAccounted(f, st, s, EntriesOf(accepted, s), io, hourOf);
  }
}
