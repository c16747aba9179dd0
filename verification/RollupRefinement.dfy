/**
 * The three levels of rollup indexes against the live hours: what a rebuild would hold, and
 * what one batch does to each file when every read and write succeeds.
 */
module RollupRefinement {
  import opened Wrappers
  import opened JsStrings
  import opened PathSegments
  import opened UriCodec
  import opened RollupPaths
  import opened RollupRows
  import opened RollupEmitter

  // ---------------------------------------------------------------------------
  // Keys and paths
  // ---------------------------------------------------------------------------

  /** A trimmed name that can be percent-encoded. */
  predicate ScriptName(s: Str) { Clean(s) && Encode(s).Some? }

  function Segment(s: Str): Str { if EncodeSegment(s).Some? then EncodeSegment(s).value else [] }

  function ScriptPath(s: Str): Str { Under([Segment(s), U("_index.json")]) }

  function DayPath(s: Str, d: Str): Str { Under([Segment(s), d, U("_index.json")]) }

  lemma HourKeyFacts(h: Str, s: Str, record: Record, hourOf: HourReader)
    requires HourKey(h, hourOf) && ScriptName(s)
    ensures |h| == 24 && DatePart(h) == h[..10] && Plain(DatePart(h))
    ensures DayPathOfDate(s, DatePart(h), hourOf) == Some(DayPath(s, DatePart(h)))
    ensures BuildRow(s, h, record, hourOf).Some?
    ensures BuildRow(s, h, record, hourOf).value.id == BuildRow(s, h, record, hourOf).value.updated == h
  {
    TrimOfTight(s);
  }

  lemma SegmentFacts(a: Str, b: Str)
    requires ScriptName(a) && ScriptName(b)
    ensures Plain(Segment(a)) && Plain(Segment(b))
    ensures Segment(a) == Segment(b) ==> a == b
    ensures ScriptIndexPath(a) == Some(ScriptPath(a))
  {
    TrimOfTight(a);
    TrimOfTight(b);
    EncodedPlain(a);
    EncodedPlain(b);
    if Segment(a) == Segment(b) { EncodeInjective(a, b); }
  }

  /** The index files of different scripts and dates never share a path. */
  lemma PathsDiffer(a: Str, d: Str, b: Str, e: Str)
    requires ScriptName(a) && ScriptName(b) && Plain(d) && Plain(e)
    ensures RootIndexPath() != ScriptPath(a) && RootIndexPath() != DayPath(a, d)
    ensures ScriptPath(a) != DayPath(b, e)
    ensures ScriptPath(a) == ScriptPath(b) ==> a == b
    ensures DayPath(a, d) == DayPath(b, e) ==> a == b && d == e
  {
    SegmentFacts(a, b);
    LiteralsPlain();
    var index := U("_index.json");
    var root, scriptA, scriptB := [index], [Segment(a), index], [Segment(b), index];
    var dayA, dayB := [Segment(a), d, index], [Segment(b), e, index];
    if RootIndexPath() == ScriptPath(a) { UnderInjective(root, scriptA); }
    if RootIndexPath() == DayPath(a, d) { UnderInjective(root, dayA); }
    if ScriptPath(a) == DayPath(b, e) { UnderInjective(scriptA, dayB); }
    if ScriptPath(a) == ScriptPath(b) { UnderInjective(scriptA, scriptB); assert scriptA[0] == scriptB[0]; }
    if DayPath(a, d) == DayPath(b, e) { UnderInjective(dayA, dayB); assert dayA[0] == dayB[0] && dayA[1] == dayB[1]; }
  }

  // ---------------------------------------------------------------------------
  // What a rebuild from the live hours holds
  // ---------------------------------------------------------------------------

  /** The live hours: the row of each (script, hour) that was upserted and not deleted since. */
  type Live = map<(Str, Str), Row>

  ghost predicate LiveKeys(live: Live, hourOf: HourReader) {
    forall k :: k in live ==> ScriptName(k.0) && HourKey(k.1, hourOf) && live[k].id == live[k].updated == k.1
  }

  function ListAt(files: map<Str, Content>, path: Str): seq<Row> {
    if Stored(files, path).Some? then Stored(files, path).value else []
  }

  function HoursOf(live: Live, s: Str, d: Str): set<Str> {
    set k | k in live && k.0 == s && DatePart(k.1) == d :: k.1
  }

  /** The rows of one script's hours of one date. */
  function DayTable(live: Live, s: Str, d: Str): map<Str, Row> {
    map h | h in HoursOf(live, s, d) :: live[(s, h)]
  }

  function DatesOf(live: Live, s: Str): set<Str> {
    set k | k in live && k.0 == s :: DatePart(k.1)
  }

  function ScriptsOf(live: Live): set<Str> {
    set k | k in live :: k.0
  }

  /** The day row that a day's list of hours calls for, by date. */
  type Summarizer = (Str, seq<Row>) -> Option<Row>

  function SummarizerOf(s: Str): Summarizer { (d, hours) => BuildDayRow(s, d, DayPath(s, d), hours) }

  function Summarizers(): Str -> Summarizer { s => SummarizerOf(s) }

  /** The root row that a script file calls for. */
  function RootRowOf(files: map<Str, Content>, s: Str): Option<Row> {
    var days := ListAt(files, ScriptPath(s));
    if days == [] then None else Some(BuildRootRow(s, ScriptPath(s), days[0]))
  }

  /** A day file: exactly that date's live hours, strictly newest first. */
  ghost predicate DayRebuilt(files: map<Str, Content>, live: Live, s: Str, d: Str) {
    && Stored(files, DayPath(s, d)).Some?
    && Tabulates(ListAt(files, DayPath(s, d)), DayTable(live, s, d))
    && StrictlyDescending(ListAt(files, DayPath(s, d)))
  }

  function ScriptTable(files: map<Str, Content>, live: Live, s: Str, sum: Summarizer): map<Str, Row> {
    map d | d in DatesOf(live, s) && sum(d, ListAt(files, DayPath(s, d))).Some? ::
      sum(d, ListAt(files, DayPath(s, d))).value
  }

  /** A script file: one row per date with a live hour, summing up that day, newest first. */
  ghost predicate ScriptRebuilt(files: map<Str, Content>, live: Live, s: Str, sum: Summarizer) {
    && Stored(files, ScriptPath(s)).Some?
    && Tabulates(ListAt(files, ScriptPath(s)), ScriptTable(files, live, s, sum))
    && StrictlyDescending(ListAt(files, ScriptPath(s)))
  }

  function RootTable(files: map<Str, Content>, live: Live): map<Str, Row> {
    map s | s in ScriptsOf(live) && RootRowOf(files, s).Some? :: RootRowOf(files, s).value
  }

  /** The root file: one row per script with a live hour, its newest day's, newest first. */
  ghost predicate RootRebuilt(files: map<Str, Content>, live: Live) {
    && Stored(files, RootIndexPath()).Some?
    && Tabulates(ListAt(files, RootIndexPath()), RootTable(files, live))
    && Descending(ListAt(files, RootIndexPath()))
  }

  /** The three levels are what a rebuild from the live hours would hold. */
  ghost predicate Rebuilt(files: map<Str, Content>, live: Live, sums: Str -> Summarizer) {
    && (forall s, d :: ScriptName(s) && Plain(d) ==> DayRebuilt(files, live, s, d))
    && (forall s :: ScriptName(s) ==> ScriptRebuilt(files, live, s, sums(s)))
    && RootRebuilt(files, live)
  }

  // ---------------------------------------------------------------------------
  // Records applied to tables
  // ---------------------------------------------------------------------------

  /** What a record does to the row of its hour. */
  datatype Change = Upsert(row: Row) | Remove | Keep

  type Editor = (Str, Entry) -> Change

  function ChangeOf(s: Str, entry: Entry, hourOf: HourReader): Change {
    if entry.record.deleted then Remove
    else match BuildRow(s, entry.hourStart, entry.record, hourOf) case Some(row) => Upsert(row) case None => Keep
  }

  function ChangesOf(hourOf: HourReader): Editor { (s, entry) => ChangeOf(s, entry, hourOf) }

  /** Upserted rows carry their hour as key and as sort key. */
  ghost predicate Faithful(f: Editor, hourOf: HourReader) {
    forall s: Str, entry: Entry :: ScriptName(s) && HourKey(entry.hourStart, hourOf) && f(s, entry).Upsert? ==>
      f(s, entry).row.id == f(s, entry).row.updated == entry.hourStart
  }

  lemma ChangesFaithful(hourOf: HourReader)
    ensures Faithful(ChangesOf(hourOf), hourOf)
  {
    forall s: Str, entry: Entry | ScriptName(s) && HourKey(entry.hourStart, hourOf)
      && ChangesOf(hourOf)(s, entry).Upsert?
      ensures ChangesOf(hourOf)(s, entry).row.id == ChangesOf(hourOf)(s, entry).row.updated == entry.hourStart
    {
      HourKeyFacts(entry.hourStart, s, entry.record, hourOf);
    }
  }

  ghost predicate GoodEntries(entries: seq<Entry>, hourOf: HourReader) {
    forall i :: 0 <= i < |entries| ==> HourKey(entries[i].hourStart, hourOf)
  }

  function ChangeTable(table: map<Str, Row>, hour: Str, change: Change): map<Str, Row> {
    match change case Upsert(row) => table[hour := row] case Remove => table - {hour} case Keep => table
  }

  /** A day's table after its records, in order. */
  function TableApply(table: map<Str, Row>, s: Str, entries: seq<Entry>, f: Editor): map<Str, Row> {
    if entries == [] then table
    else
      var last := entries[|entries| - 1];
      ChangeTable(TableApply(table, s, entries[..|entries| - 1], f), last.hourStart, f(s, last))
  }

  lemma ApplyEntryTabulates(rows: seq<Row>, table: map<Str, Row>, s: Str, entry: Entry, hourOf: HourReader)
    requires Tabulates(rows, table) && ScriptName(s) && HourKey(entry.hourStart, hourOf)
    ensures ApplyEntry(rows, s, entry, hourOf).Some?
    ensures Tabulates(ApplyEntry(rows, s, entry, hourOf).value,
                      ChangeTable(table, entry.hourStart, ChangeOf(s, entry, hourOf)))
  {
    HourKeyFacts(entry.hourStart, s, entry.record, hourOf);
    if entry.record.deleted {
      DropTabulates(rows, table, entry.hourStart);
    } else {
      PutTabulates(rows, table, BuildRow(s, entry.hourStart, entry.record, hourOf).value);
    }
  }

  lemma {:induction false} ApplyEntriesTabulates(rows: seq<Row>, table: map<Str, Row>, s: Str, entries: seq<Entry>,
                                                 hourOf: HourReader)
    requires Tabulates(rows, table) && ScriptName(s) && GoodEntries(entries, hourOf)
    ensures ApplyEntries(rows, s, entries, hourOf).Some?
    ensures Tabulates(ApplyEntries(rows, s, entries, hourOf).value, TableApply(table, s, entries, ChangesOf(hourOf)))
  {
    if entries == [] {
    } else {
      var last, front := entries[|entries| - 1], entries[..|entries| - 1];
      ApplyEntriesTabulates(rows, table, s, front, hourOf);
      ApplyEntryTabulates(ApplyEntries(rows, s, front, hourOf).value, TableApply(table, s, front, ChangesOf(hourOf)), s,
                          last, hourOf);
    }
  }

  function ChangeLive(live: Live, key: (Str, Str), change: Change): Live {
    match change case Upsert(row) => live[key := row] case Remove => live - {key} case Keep => live
  }

  /** The live hours after a batch's records, in order. */
  function ApplyLive(live: Live, accepted: seq<(Str, Entry)>, f: Editor): Live {
    if accepted == [] then live
    else
      var last := accepted[|accepted| - 1];
      ChangeLive(ApplyLive(live, accepted[..|accepted| - 1], f), (last.0, last.1.hourStart), f(last.0, last.1))
  }

  ghost predicate GoodBatch(accepted: seq<(Str, Entry)>, hourOf: HourReader) {
    forall i :: 0 <= i < |accepted| ==> ScriptName(accepted[i].0) && HourKey(accepted[i].1.hourStart, hourOf)
  }

  lemma {:induction false} ApplyLiveKeys(live: Live, accepted: seq<(Str, Entry)>, f: Editor, hourOf: HourReader)
    requires LiveKeys(live, hourOf) && GoodBatch(accepted, hourOf) && Faithful(f, hourOf)
    ensures LiveKeys(ApplyLive(live, accepted, f), hourOf)
  {
    if accepted == [] {
    } else {
      var front, last := accepted[..|accepted| - 1], accepted[|accepted| - 1];
      ApplyLiveKeys(live, front, f, hourOf);
      ChangeKeys(ApplyLive(live, front, f), last.0, last.1, f, hourOf);
    }
  }

  lemma ChangeKeys(live: Live, s: Str, entry: Entry, f: Editor, hourOf: HourReader)
    requires LiveKeys(live, hourOf) && ScriptName(s) && HourKey(entry.hourStart, hourOf) && Faithful(f, hourOf)
    ensures LiveKeys(ChangeLive(live, (s, entry.hourStart), f(s, entry)), hourOf)
  {}

  /** Applying two batches is applying their concatenation. */
  lemma {:induction false} ApplyLiveConcat(live: Live, a: seq<(Str, Entry)>, b: seq<(Str, Entry)>, f: Editor)
    ensures ApplyLive(live, a + b, f) == ApplyLive(ApplyLive(live, a, f), b, f)
  {
    if b == [] {
      assert a + b == a;
    } else {
      assert (a + b)[..|a + b| - 1] == a + b[..|b| - 1];
      ApplyLiveConcat(live, a, b[..|b| - 1], f);
    }
  }

  /** The entries of one script and one date. */
  function EntriesAt(accepted: seq<(Str, Entry)>, s: Str, d: Str): seq<Entry> {
    EntriesOf(Dated(EntriesOf(accepted, s)), d)
  }

  lemma EntriesAtSnoc(accepted: seq<(Str, Entry)>, last: (Str, Entry), s: Str, d: Str)
    ensures EntriesAt(accepted + [last], s, d)
      == if last.0 == s && DatePart(last.1.hourStart) == d then EntriesAt(accepted, s, d) + [last.1]
         else EntriesAt(accepted, s, d)
  {
    KeysOfSnoc(accepted, last);
    if last.0 == s {
      var entries := EntriesOf(accepted, s);
      assert Dated(entries + [last.1]) == Dated(entries) + [(DatePart(last.1.hourStart), last.1)];
      KeysOfSnoc(Dated(entries), (DatePart(last.1.hourStart), last.1));
    } else {
      assert EntriesOf(accepted, s) + [] == EntriesOf(accepted, s);
    }
  }

  lemma DayTableStep(live: Live, s: Str, h: Str, change: Change, t: Str, d: Str)
    ensures DayTable(ChangeLive(live, (s, h), change), t, d)
      == if s == t && DatePart(h) == d then ChangeTable(DayTable(live, t, d), h, change) else DayTable(live, t, d)
  {
    var live' := ChangeLive(live, (s, h), change);
    var old', new' := DayTable(live, t, d), DayTable(live', t, d);
    var changed := if s == t && DatePart(h) == d then ChangeTable(old', h, change) else old';
    forall k ensures (k in new' <==> k in changed) && (k in new' ==> new'[k] == changed[k]) {
      DayTableAt(live, s, h, change, t, d, k);
    }
  }

  lemma DayTableAt(live: Live, s: Str, h: Str, change: Change, t: Str, d: Str, k: Str)
    ensures
      var before, after := DayTable(live, t, d), DayTable(ChangeLive(live, (s, h), change), t, d);
      var changed := if s == t && DatePart(h) == d then ChangeTable(before, h, change) else before;
      (k in after <==> k in changed) && (k in after ==> after[k] == changed[k])
  {
    InDayTable(live, t, d, k);
    InDayTable(ChangeLive(live, (s, h), change), t, d, k);
  }

  lemma InDayTable(live: Live, s: Str, d: Str, k: Str)
    ensures k in DayTable(live, s, d) <==> (s, k) in live && DatePart(k) == d
    ensures k in DayTable(live, s, d) ==> DayTable(live, s, d)[k] == live[(s, k)]
  {
    assert k in HoursOf(live, s, d) <==> (s, k) in live && DatePart(k) == d;
  }

  /** Grouping by script and date loses and reorders nothing: each day sees its own records. */
  lemma {:induction false} DayTableApply(live: Live, accepted: seq<(Str, Entry)>, s: Str, d: Str, f: Editor)
    ensures DayTable(ApplyLive(live, accepted, f), s, d)
      == TableApply(DayTable(live, s, d), s, EntriesAt(accepted, s, d), f)
  {
    if accepted == [] {
    } else {
      var last, front := accepted[|accepted| - 1], accepted[..|accepted| - 1];
      DayTableApply(live, front, s, d, f);
      assert accepted == front + [last];
      EntriesAtSnoc(front, last, s, d);
      DayTableStep(ApplyLive(live, front, f), last.0, last.1.hourStart, f(last.0, last.1), s, d);
      var entries := EntriesAt(front, s, d);
      assert (entries + [last.1])[..|entries|] == entries;
    }
  }
}
