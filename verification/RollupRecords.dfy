/**
 * Which hour a rollup record is about, read off its fields, and what a run of batches leaves of
 * every hour: what the last record about it says
 * (packages/cloudflare/src/emit-auxiliary-files.ts:239-262, 295-302, 407-431).
 */
module RollupRecords {
  import opened Wrappers
  import opened JsStrings
  import opened PathSegments
  import opened UriCodec
  import opened Calendar
  import opened Decimals
  import opened IsoText
  import opened RollupPaths
  import opened RollupRows
  import opened RollupEmitter
  import opened RollupRefinement
  import opened RollupEffects
  import opened RollupRuns
  import opened Latest

  // ---------------------------------------------------------------------------
  // The hour a record is about
  // ---------------------------------------------------------------------------

  /** A text that names an instant whose hour starts at h. */
  ghost predicate HourAt(text: Str, h: Str, host: Host) {
    exists t: Time :: DateParse(text, host) == Some(t) && h == Iso(HourFloor(t))
  }

  ghost predicate Spells(text: Str, year: Str, month: Str, day: Str, hour: Str, end: Str) {
    && |year| == 4 && |month| == |day| == |hour| == 2
    && AllDigits(year) && AllDigits(month) && AllDigits(day) && AllDigits(hour)
    && (end == U(":00:00.000Z") || end == U(":00:00Z"))
    && text == year + [DASH] + month + [DASH] + day + [LETTER_T] + hour + end
  }

  /** The hour texts that an id may end in. */
  ghost predicate WholeHourText(text: Str) {
    exists year: Str, month: Str, day: Str, hour: Str, end: Str :: Spells(text, year, month, day, hour, end)
  }

  /** An id that is a script and a whole hour with a slash between them. */
  ghost predicate IdNames(id: Str, s: Str, h: Str, host: Host) {
    exists head: Str, text: Str ::
      Splits(id, head, text) && s == Trim(head) && s != [] && WholeHourText(text) && HourAt(text, h, host)
  }

  predicate Splits(id: Str, head: Str, text: Str) { id == head + [SLASH] + text }

  ghost predicate IdOfRecordNames(record: Record, s: Str, h: Str, host: Host) {
    ReadString(record.id).Some? && IdNames(ReadString(record.id).value, s, h, host)
  }

  /** The record's script is s: its own field, or else its id. */
  ghost predicate NamesScript(record: Record, s: Str, host: Host) {
    if ReadString(record.scriptName).Some? then ReadString(record.scriptName) == Some(s)
    else exists h :: IdOfRecordNames(record, s, h, host)
  }

  /** The record's hour is h: that of its own field, or else of its id. */
  ghost predicate NamesHourStart(record: Record, h: Str, host: Host) {
    if ReadString(record.hourStart).Some? then HourAt(ReadString(record.hourStart).value, h, host)
    else exists s, named :: IdOfRecordNames(record, s, named, host) && HourAt(named, h, host)
  }

  /** The record is about script s and the hour that starts at h. */
  ghost predicate Names(record: Record, s: Str, h: Str, host: Host) {
    NamesScript(record, s, host) && NamesHourStart(record, h, host)
  }

  lemma WholeHourTextIff(text: Str)
    ensures IdHourPattern(text) <==> WholeHourText(text)
  {
    if IdHourPattern(text) {
      var date := text[..10];
      assert date[0..4] == text[0..4] && date[5..7] == text[5..7] && date[8..10] == text[8..10];
      assert Spells(text, text[0..4], text[5..7], text[8..10], text[11..13], text[13..]);
    }
    if WholeHourText(text) {
      var year, month, day, hour, end :| Spells(text, year, month, day, hour, end);
      assert text[..10][0..4] == year && text[..10][5..7] == month && text[..10][8..10] == day;
      assert text[11..13] == hour && text[13..] == end;
    }
  }

  lemma WholeHourTextPlain(text: Str)
    requires WholeHourText(text)
    ensures Plain(text)
  {
    var year, month, day, hour, end :| Spells(text, year, month, day, hour, end);
    assert Plain(year) && Plain(month) && Plain(day) && Plain(hour) && Plain(end);
  }

  lemma HourAtIff(text: Str, h: Str, host: Host)
    ensures HourAt(text, h, host) <==> HourReaderOf(host)(text).Some? && HourReaderOf(host)(text).value.hourStart == h
  {
    if HourReaderOf(host)(text).Some? { assert DateParse(text, host).Some?; }
  }

  lemma ParseSplitId(head: Str, text: Str, read: HourReader)
    requires Plain(text)
    ensures ParseId(head + [SLASH] + text, read)
      == if Trim(head) == [] || !IdHourPattern(text) || read(text).None? then None
         else Some((Trim(head), read(text).value.hourStart))
  {
    var id := head + [SLASH] + text;
    LastSlashOf(head, text);
    assert id[..|head|] == head && id[|head| + 1..] == text;
  }

  lemma ParsedIdSplits(id: Str, read: HourReader)
    requires ParseId(id, read).Some?
    ensures LastSlash(id) >= 0 && id == id[..LastSlash(id)] + [SLASH] + id[LastSlash(id) + 1..]
    ensures Plain(id[LastSlash(id) + 1..])
  {
    SplitAtSlash(id, LastSlash(id));
  }

  lemma SplitAtSlash(id: Str, at: nat)
    requires at < |id| && id[at] == SLASH
    ensures id == id[..at] + [SLASH] + id[at + 1..]
  {}

  lemma NamedIdParses(head: Str, text: Str, h: Str, host: Host)
    requires Trim(head) != [] && WholeHourText(text) && HourAt(text, h, host)
    ensures ParseId(head + [SLASH] + text, HourReaderOf(host)) == Some((Trim(head), h))
  {
    WholeHourTextPlain(text);
    WholeHourTextIff(text);
    HourAtIff(text, h, host);
    ParseSplitId(head, text, HourReaderOf(host));
  }

  /** The id parser reads exactly the ids that are a script and a whole hour. */
  lemma ParseIdIff(id: Str, s: Str, h: Str, host: Host)
    ensures ParseId(id, HourReaderOf(host)) == Some((s, h)) <==> IdNames(id, s, h, host)
  {
    var read := HourReaderOf(host);
    if ParseId(id, read) == Some((s, h)) {
      ParsedIdSplits(id, read);
      SplitIdNames(id[..LastSlash(id)], id[LastSlash(id) + 1..], s, h, host, read);
    }
    if IdNames(id, s, h, host) {
      var head, text :| Splits(id, head, text) && s == Trim(head) && s != [] && WholeHourText(text)
                        && HourAt(text, h, host);
      NamedIdParses(head, text, h, host);
    }
  }

  lemma SplitIdNames(head: Str, text: Str, s: Str, h: Str, host: Host, read: HourReader)
    requires read == HourReaderOf(host) && Plain(text) && ParseId(head + [SLASH] + text, read) == Some((s, h))
    ensures IdNames(head + [SLASH] + text, s, h, host)
  {
    ParseSplitId(head, text, read);
    WholeHourTextIff(text);
    HourAtIff(text, h, host);
    assert Splits(head + [SLASH] + text, head, text);
  }

  /** What the emitter makes of a record is the script and the hour that the record is about. */
  lemma LocateIff(record: Record, s: Str, h: Str, host: Host)
    ensures Locate(record, HourReaderOf(host)) == Some((s, h)) <==> Names(record, s, h, host)
  {
    var read := HourReaderOf(host);
    var fromId := match ReadString(record.id) case Some(id) => ParseId(id, read) case None => None;
    forall a, b ensures IdOfRecordNames(record, a, b, host) <==> fromId == Some((a, b)) {
      if ReadString(record.id).Some? { ParseIdIff(ReadString(record.id).value, a, b, host); }
    }
    NamesScriptIff(record, s, host, fromId);
    NamesHourIff(record, h, host, fromId);
    LocateParts(record, s, h, read, fromId);
  }

  lemma LocateParts(record: Record, s: Str, h: Str, read: HourReader, fromId: Option<(Str, Str)>)
    requires fromId == match ReadString(record.id) case Some(id) => ParseId(id, read) case None => None
    ensures Locate(record, read) == Some((s, h)) <==>
      && OrElse(ReadString(record.scriptName), if fromId.Some? then Some(fromId.value.0) else None) == Some(s)
      && HourRead(record, h, read, fromId)
  {}

  predicate HourRead(record: Record, h: Str, read: HourReader, fromId: Option<(Str, Str)>) {
    match OrElse(ReadString(record.hourStart), if fromId.Some? then Some(fromId.value.1) else None)
    case None => false
    case Some(text) => read(text).Some? && read(text).value.hourStart == h
  }

  lemma NamesScriptIff(record: Record, s: Str, host: Host, fromId: Option<(Str, Str)>)
    requires forall a, b :: IdOfRecordNames(record, a, b, host) <==> fromId == Some((a, b))
    ensures NamesScript(record, s, host)
      <==> OrElse(ReadString(record.scriptName), if fromId.Some? then Some(fromId.value.0) else None) == Some(s)
  {
    if fromId.Some? { assert IdOfRecordNames(record, fromId.value.0, fromId.value.1, host); }
  }

  lemma NamesHourIff(record: Record, h: Str, host: Host, fromId: Option<(Str, Str)>)
    requires forall a, b :: IdOfRecordNames(record, a, b, host) <==> fromId == Some((a, b))
    ensures NamesHourStart(record, h, host) <==> HourRead(record, h, HourReaderOf(host), fromId)
  {
    if ReadString(record.hourStart).Some? {
      HourAtIff(ReadString(record.hourStart).value, h, host);
    } else if fromId.Some? {
      assert IdOfRecordNames(record, fromId.value.0, fromId.value.1, host);
      HourAtIff(fromId.value.1, h, host);
    }
  }

  // ---------------------------------------------------------------------------
  // What the row of an hour shows
  // ---------------------------------------------------------------------------

  predicate Counted(shown: real, told: Option<real>) {
    (told.Some? ==> shown == told.value) && (told.None? ==> shown == 0.0)
  }

  /** The first error, if the record has one with a message. */
  predicate ShowsError(shown: Option<(Str, real)>, top: Option<TopError>) {
    if top.Some? && ReadString(top.value.message).Some? then
      shown.Some? && ReadString(top.value.message) == Some(shown.value.0) && Counted(shown.value.1, top.value.count)
    else shown.None?
  }

  /** The row of an hour: what the record says of it, under a path that parses back to the hour. */
  predicate Shows(row: Row, s: Str, h: Str, record: Record, host: Host)
    requires |h| == 24
  {
    && row.id == row.updated == row.hourStart == h && row.scriptName == s
    && row.title == s + U(" ") + h[..13] + U(":00Z")
    && ParsePath(row.canonicalPath, host) == Parsed(s, h[..10], h[11..13], h)
    && Counted(row.events, record.events) && Counted(row.exceptions, record.exceptions)
    && Counted(row.failures, record.failures) && Counted(row.status5xx, record.status5xx)
    && row.severity == ReadString(record.severity) && ShowsError(row.topError, record.topError)
    && row.day.None? && row.root.None?
  }

  /** The emitter can print what the record is about, and its hour is one of the years 0000 to 9999. */
  ghost predicate GoodRecord(record: Record, host: Host) {
    forall s, h :: Names(record, s, h, host) ==> WellFormed(s) && |h| == 24
  }

  lemma NamedKey(record: Record, s: Str, h: Str, host: Host) returns (t: Time)
    requires GoodRecord(record, host) && Names(record, s, h, host)
    ensures ScriptName(s) && FourDigitYear(t) && HourFloor(t) == t && h == Iso(t)
  {
    LocateIff(record, s, h, host);
    LocatedClean(record, s, h, HourReaderOf(host));
    EncodeDefined(s);
    var text :| HourReaderOf(host)(text).Some? && HourReaderOf(host)(text).value.hourStart == h;
    t := HourFloor(DateParse(text, host).value);
    ShortIsoYear(t);
  }

  lemma LocatedClean(record: Record, s: Str, h: Str, read: HourReader)
    requires Locate(record, read) == Some((s, h))
    ensures Clean(s) && exists text :: read(text).Some? && read(text).value.hourStart == h
  {
    if ReadString(record.scriptName).None? {
      var id := ReadString(record.id).value;
      TrimIsTight(id[..LastSlash(id)]);
    }
  }

  lemma BuiltRowShows(record: Record, s: Str, t: Time, host: Host)
    requires ScriptName(s) && FourDigitYear(t) && HourFloor(t) == t
    ensures |Iso(t)| == 24 && BuildRow(s, Iso(t), record, HourReaderOf(host)).Some?
    ensures Shows(BuildRow(s, Iso(t), record, HourReaderOf(host)).value, s, Iso(t), record, host)
  {
    IsoParts(t);
    TrimOfTight(s);
    ParseIsoOfIso(t);
    ParseOfPrintedPath(s, t, host);
  }

  // ---------------------------------------------------------------------------
  // The last word on an hour
  // ---------------------------------------------------------------------------

  /** The last record that is about the hour, or -1. */
  ghost function LastAbout(records: seq<Record>, s: Str, h: Str, host: Host): (i: int)
    ensures -1 <= i < |records|
  {
    LastWhere(records, record => Names(record, s, h, host))
  }

  function Row0(live: Live, s: Str, h: Str): Option<Row> { if (s, h) in live then Some(live[(s, h)]) else None }

  /** What a record leaves of its hour: nothing, or the row that shows it. */
  predicate Leaves(record: Record, after: Option<Row>, s: Str, h: Str, host: Host)
    requires |h| == 24
  {
    if record.deleted then after.None? else after.Some? && Shows(after.value, s, h, record, host)
  }

  /** An hour is left as its last record says, or as it was. */
  ghost predicate LastWord(before: Option<Row>, after: Option<Row>, records: seq<Record>, s: Str, h: Str, host: Host)
    requires |h| == 24
  {
    var i := LastAbout(records, s, h, host);
    if i < 0 then after == before else Leaves(records[i], after, s, h, host)
  }

  lemma OneChange(live: Live, record: Record, s: Str, h: Str, t: Str, k: Str, hourOf: HourReader)
    ensures
      var change := ChangesOf(hourOf)(s, Entry(h, record));
      Row0(ChangeLive(live, (s, h), change), t, k)
      == if (t, k) != (s, h) || change.Keep? then Row0(live, t, k)
         else if change.Remove? then None else Some(change.row)
  {}

  lemma AcceptedSnoc(records: seq<Record>, hourOf: HourReader)
    requires records != []
    ensures
      var last := records[|records| - 1];
      AcceptedIn(records, hourOf) == AcceptedIn(records[..|records| - 1], hourOf)
        + (match Locate(last, hourOf) case Some((s, h)) => [(s, Entry(h, last))] case None => [])
  {}

  lemma AfterSnoc(live: Live, accepted: seq<(Str, Entry)>, last: (Str, Entry), hourOf: HourReader)
    ensures After(live, accepted + [last], hourOf)
      == ChangeLive(After(live, accepted, hourOf), (last.0, last.1.hourStart), ChangesOf(hourOf)(last.0, last.1))
  {
    assert (accepted + [last])[..|accepted|] == accepted;
  }

  lemma AfterFirst(live: Live, first: (Str, Entry), hourOf: HourReader)
    ensures After(live, [first], hourOf)
      == ChangeLive(live, (first.0, first.1.hourStart), ChangesOf(hourOf)(first.0, first.1))
  {
    AfterSnoc(live, [], first, hourOf);
    assert [] + [first] == [first];
  }

  lemma OneMore(live: Live, record: Record, s: Str, h: Str, host: Host)
    requires |h| == 24 && GoodRecord(record, host)
    ensures
      var hourOf := HourReaderOf(host);
      var accepted := match Locate(record, hourOf) case Some((t, k)) => [(t, Entry(k, record))] case None => [];
      var after := Row0(ApplyLive(live, accepted, ChangesOf(hourOf)), s, h);
      if Names(record, s, h, host) then Leaves(record, after, s, h, host) else after == Row0(live, s, h)
  {
    var hourOf := HourReaderOf(host);
    LocateIff(record, s, h, host);
    match Locate(record, hourOf)
    case None =>
    case Some((t, k)) =>
      OneChange(live, record, t, k, s, h, hourOf);
      LocateIff(record, t, k, host);
      AfterFirst(live, (t, Entry(k, record)), hourOf);
      if Names(record, s, h, host) {
        var time := NamedKey(record, s, h, host);
        BuiltRowShows(record, s, time, host);
      }
  }

  lemma RecordLastWord(live: Live, front: seq<Record>, last: Record, s: Str, h: Str, host: Host)
    requires |h| == 24 && GoodRecord(last, host)
    ensures
      var mid, after := AfterRecords(live, front, host), AfterRecords(live, front + [last], host);
      if Names(last, s, h, host) then Leaves(last, Row0(after, s, h), s, h, host)
      else Row0(after, s, h) == Row0(mid, s, h)
  {
    var hourOf := HourReaderOf(host);
    SingleAccepted(last, hourOf, front);
    ApplyLiveConcat(live, AcceptedIn(front, hourOf), AcceptedIn([last], hourOf), ChangesOf(hourOf));
    AcceptedSnoc([last], hourOf);
    OneMore(AfterRecords(live, front, host), last, s, h, host);
  }

  /** The live hours after a batch. */
  ghost function AfterRecords(live: Live, records: seq<Record>, host: Host): Live {
    After(live, AcceptedIn(records, HourReaderOf(host)), HourReaderOf(host))
  }

  lemma {:induction false} BatchLastWord(live: Live, records: seq<Record>, s: Str, h: Str, host: Host)
    requires |h| == 24 && forall i :: 0 <= i < |records| ==> GoodRecord(records[i], host)
    ensures LastWord(Row0(live, s, h), Row0(AfterRecords(live, records, host), s, h), records, s, h, host)
  {
    if records == [] {
    } else {
      var front, last := records[..|records| - 1], records[|records| - 1];
      assert records == front + [last];
      BatchLastWord(live, front, s, h, host);
      RecordLastWord(live, front, last, s, h, host);
    }
  }

  // ---------------------------------------------------------------------------
  // Runs
  // ---------------------------------------------------------------------------

  /** The records of a run, in order. */
  function Flat(batches: seq<seq<Record>>): seq<Record> {
    if batches == [] then [] else Flat(batches[..|batches| - 1]) + batches[|batches| - 1]
  }

  lemma {:induction false} AcceptedConcat(a: seq<Record>, b: seq<Record>, hourOf: HourReader)
    ensures AcceptedIn(a + b, hourOf) == AcceptedIn(a, hourOf) + AcceptedIn(b, hourOf)
  {
    if b == [] {
      assert a + b == a;
    } else {
      var front, last := b[..|b| - 1], b[|b| - 1];
      assert a + b == (a + front) + [last] && b == front + [last];
      AcceptedConcat(a, front, hourOf);
      SingleAccepted(last, hourOf, a + front);
      SingleAccepted(last, hourOf, front);
    }
  }

  lemma {:induction false} LiveRunIsFlat(live: Live, batches: seq<seq<Record>>, host: Host)
    ensures LiveRun(live, batches, HourReaderOf(host)) == AfterRecords(live, Flat(batches), host)
  {
    if batches == [] {
    } else {
      var hourOf, front, last := HourReaderOf(host), batches[..|batches| - 1], batches[|batches| - 1];
      LiveRunIsFlat(live, front, host);
      AcceptedConcat(Flat(front), last, hourOf);
      ApplyLiveConcat(live, AcceptedIn(Flat(front), hourOf), AcceptedIn(last, hourOf), ChangesOf(hourOf));
    }
  }

  ghost predicate GoodRecords(records: seq<Record>, host: Host) {
    forall i :: 0 <= i < |records| ==> GoodRecord(records[i], host)
  }

  lemma GoodLocated(record: Record, s: Str, h: Str, host: Host)
    requires GoodRecord(record, host) && Locate(record, HourReaderOf(host)) == Some((s, h))
    ensures ScriptName(s) && HourKey(h, HourReaderOf(host))
  {
    LocateIff(record, s, h, host);
    var t := NamedKey(record, s, h, host);
    BucketIsHourKey(t, host);
  }

  lemma GoodSnoc(accepted: seq<(Str, Entry)>, located: Option<(Str, Str)>, last: Record, hourOf: HourReader)
    requires GoodBatch(accepted, hourOf)
    requires located.Some? ==> ScriptName(located.value.0) && HourKey(located.value.1, hourOf)
    ensures GoodBatch(accepted + (match located case Some((s, h)) => [(s, Entry(h, last))] case None => []), hourOf)
  {}

  lemma {:induction false} GoodAccepted(records: seq<Record>, host: Host)
    requires GoodRecords(records, host)
    ensures GoodBatch(AcceptedIn(records, HourReaderOf(host)), HourReaderOf(host))
  {
    if records == [] {
    } else {
      var hourOf, front, last := HourReaderOf(host), records[..|records| - 1], records[|records| - 1];
      GoodAccepted(front, host);
      AcceptedSnoc(records, hourOf);
      var located := Locate(last, hourOf);
      if located.Some? { GoodLocated(last, located.value.0, located.value.1, host); }
      GoodSnoc(AcceptedIn(front, hourOf), located, last, hourOf);
    }
  }

  lemma {:induction false} GoodFlat(batches: seq<seq<Record>>, host: Host)
    requires GoodRecords(Flat(batches), host)
    ensures GoodRun(batches, HourReaderOf(host))
  {
    if batches == [] {
    } else {
      var front, last := batches[..|batches| - 1], batches[|batches| - 1];
      var all := Flat(batches);
      assert all[..|Flat(front)|] == Flat(front) && all[|Flat(front)|..] == last;
      GoodPart(all, 0, |Flat(front)|, host);
      GoodPart(all, |Flat(front)|, |all|, host);
      assert all[0..|Flat(front)|] == Flat(front) && all[|Flat(front)|..|all|] == last;
      GoodFlat(front, host);
      GoodAccepted(last, host);
      assert batches == front + [last];
      GoodRunSnoc(front, last, HourReaderOf(host));
    }
  }

  lemma GoodPart(records: seq<Record>, from: nat, to: nat, host: Host)
    requires from <= to <= |records| && GoodRecords(records, host)
    ensures GoodRecords(records[from..to], host)
  {}

  /**
   * After every run of batches without I/O failure, a day file shows each of its hours as the last
   * record about that hour says, and leaves out the hours that were last deleted.
   */
  lemma RunsKeepLastWords(f: Files, live: Live, batches: seq<seq<Record>>, io: Weather, host: Host, s: Str, h: Str)
    requires Rebuilt(f, live, Summarizers()) && LiveKeys(live, HourReaderOf(host))
    requires Fair(io) && GoodRecords(Flat(batches), host) && ScriptName(s) && |h| == 24 && Plain(h[..10])
    ensures
      var rows := ById(ListAt(Run(f, batches, io, HourReaderOf(host)), DayPath(s, h[..10])));
      LastWord(Row0(live, s, h), LookUp(rows, h), Flat(batches), s, h, host)
  {
    var hourOf := HourReaderOf(host);
    GoodFlat(batches, host);
    RunRebuilt(f, live, batches, io, hourOf, Summarizers());
    LiveRunIsFlat(live, batches, host);
    BatchLastWord(live, Flat(batches), s, h, host);
    DayFileShows(Run(f, batches, io, hourOf), LiveRun(live, batches, hourOf), Summarizers(), s, h);
  }

  lemma DayFileShows(files: Files, live: Live, sums: Str -> Summarizer, s: Str, h: Str)
    requires Rebuilt(files, live, sums) && ScriptName(s) && |h| == 24 && Plain(h[..10])
    ensures LookUp(ById(ListAt(files, DayPath(s, h[..10]))), h) == Row0(live, s, h)
  {
    assert DayRebuilt(files, live, s, h[..10]);
    TabulatesById(ListAt(files, DayPath(s, h[..10])), DayTable(live, s, h[..10]));
    InDayTable(live, s, h[..10], h);
  }

  // ---------------------------------------------------------------------------
  // Records that carry a printed id
  // ---------------------------------------------------------------------------

  lemma PrintedIdIsClean(script: Str, t: Time)
    requires Trim(script) != [] && FourDigitYear(HourFloor(t))
    ensures RollupId(script, t).Some? && ReadString(RollupId(script, t)) == RollupId(script, t)
  {
    TrimIsTight(script);
    IsoParts(HourFloor(t));
    var id := RollupId(script, t).value;
    assert id[|id| - 1] == Iso(HourFloor(t))[23];
    TrimOfTight(id);
  }

  /** Under a printed id an explicit field wins, each on its own, and the id fills in what is missing. */
  lemma PrintedIdFillsIn(record: Record, script: Str, t: Time, s: Str, h: Str, host: Host)
    requires Trim(script) != [] && FourDigitYear(HourFloor(t)) && record.id == RollupId(script, t)
    ensures Names(record, s, h, host) <==>
      && Some(s) == OrElse(ReadString(record.scriptName), Some(Trim(script)))
      && if ReadString(record.hourStart).Some? then HourAt(ReadString(record.hourStart).value, h, host)
         else h == Iso(HourFloor(t))
  {
    var hourOf, hour := HourReaderOf(host), Iso(HourFloor(t));
    PrintedIdIsClean(script, t);
    ParseOfPrintedId(script, t, host);
    ParseIsoOfIso(HourFloor(t));
    FloorTwice(t);
    LocateIff(record, s, h, host);
    LocateParts(record, s, h, hourOf, Some((Trim(script), hour)));
    if ReadString(record.hourStart).Some? { HourAtIff(ReadString(record.hourStart).value, h, host); }
  }

  lemma OneTombstone(f: Files, live: Live, record: Record, s: Str, h: Str, io: Weather, host: Host)
    requires Rebuilt(f, live, Summarizers()) && LiveKeys(live, HourReaderOf(host)) && Fair(io)
    requires GoodRecord(record, host) && Names(record, s, h, host) && record.deleted
    ensures Rebuilt(Batch(f, [record], io, HourReaderOf(host)), live - {(s, h)}, Summarizers())
  {
    var hourOf, accepted := HourReaderOf(host), [(s, Entry(h, record))];
    GoodAccepted([record], host);
    LocateIff(record, s, h, host);
    AcceptedSnoc([record], hourOf);
    assert AcceptedIn([record], hourOf) == accepted;
    AfterOne(live, s, h, record, hourOf);
    BatchRebuilt(f, live, [record], io, hourOf, Summarizers());
  }

  lemma AfterOne(live: Live, s: Str, h: Str, record: Record, hourOf: HourReader)
    requires record.deleted
    ensures After(live, [(s, Entry(h, record))], hourOf) == live - {(s, h)}
  {
    AfterSnoc(live, [], (s, Entry(h, record)), hourOf);
    assert [] + [(s, Entry(h, record))] == [(s, Entry(h, record))];
  }

  /** A tombstone with nothing but a printed id takes exactly that hour out of a rebuilt store. */
  lemma BareTombstoneRemovesHour(f: Files, live: Live, script: Str, t: Time, io: Weather, host: Host)
    requires Rebuilt(f, live, Summarizers()) && LiveKeys(live, HourReaderOf(host)) && Fair(io)
    requires Trim(script) != [] && WellFormed(Trim(script)) && FourDigitYear(HourFloor(t))
    ensures
      var record := Record(RollupId(script, t), None, None, true, None, None, None, None, None, None);
      Rebuilt(Batch(f, [record], io, HourReaderOf(host)), live - {(Trim(script), Iso(HourFloor(t)))}, Summarizers())
  {
    var record := Record(RollupId(script, t), None, None, true, None, None, None, None, None, None);
    BareRecordIsGood(record, script, t, host);
    PrintedIdFillsIn(record, script, t, Trim(script), Iso(HourFloor(t)), host);
    OneTombstone(f, live, record, Trim(script), Iso(HourFloor(t)), io, host);
  }

  lemma BareRecordIsGood(record: Record, script: Str, t: Time, host: Host)
    requires Trim(script) != [] && WellFormed(Trim(script)) && FourDigitYear(HourFloor(t))
    requires record.id == RollupId(script, t) && record.scriptName.None? && record.hourStart.None?
    ensures GoodRecord(record, host)
  {
    IsoParts(HourFloor(t));
    forall a, b | Names(record, a, b, host) ensures WellFormed(a) && |b| == 24 {
      PrintedIdFillsIn(record, script, t, a, b, host);
    }
  }

  // ---------------------------------------------------------------------------
  // What a batch reports, and batches that name no hour
  // ---------------------------------------------------------------------------

  ghost predicate NamesNone(record: Record, host: Host) { forall s, h :: !Names(record, s, h, host) }

  /** How many records are about no hour. */
  ghost function Unnamed(records: seq<Record>, host: Host): nat {
    if records == [] then 0
    else Unnamed(records[..|records| - 1], host) + if NamesNone(records[|records| - 1], host) then 1 else 0
  }

  lemma LocatedUnlessNone(record: Record, host: Host)
    ensures Locate(record, HourReaderOf(host)).None? <==> NamesNone(record, host)
  {
    forall s, h ensures Locate(record, HourReaderOf(host)) == Some((s, h)) <==> Names(record, s, h, host) {
      LocateIff(record, s, h, host);
    }
    if Locate(record, HourReaderOf(host)).Some? {
      var (s, h) := Locate(record, HourReaderOf(host)).value;
      assert Names(record, s, h, host);
    }
  }

  /** Each record that is about no hour is reported once as skipped, and no other is. */
  lemma {:induction false} SkippedAreUnnamed(records: seq<Record>, host: Host)
    ensures
      var errors := SkipErrors(records, LocatorOf(HourReaderOf(host)));
      |errors| == Unnamed(records, host)
        && forall i :: 0 <= i < |errors| ==> errors[i] == (RootIndexPath(), Skipped)
  {
    if records == [] {
    } else {
      SkippedAreUnnamed(records[..|records| - 1], host);
      LocatedUnlessNone(records[|records| - 1], host);
    }
  }

  lemma {:induction false} NoneAccepted(records: seq<Record>, host: Host)
    requires forall i :: 0 <= i < |records| ==> NamesNone(records[i], host)
    ensures AcceptedIn(records, HourReaderOf(host)) == []
  {
    if records == [] {
    } else {
      NoneAccepted(records[..|records| - 1], host);
      LocatedUnlessNone(records[|records| - 1], host);
      AcceptedSnoc(records, HourReaderOf(host));
    }
  }

  /**
   * A batch without records makes sure that there is a root index and leaves one that is there; a batch
   * whose records are about no hour, or whose client cannot read, touches nothing.
   */
  lemma IdleBatch(f: Files, records: seq<Record>, io: Weather, host: Host)
    requires forall i :: 0 <= i < |records| ==> NamesNone(records[i], host)
    ensures
      var after, root := Batch(f, records, io, HourReaderOf(host)), RootIndexPath();
      && (forall p :: p != root ==> SameAt(f, after, p))
      && if records == [] && io.canRead && io.readOk(root) && io.writeOk(root) && (root !in f || f[root] == Blank) then
           root in after && after[root] == Index([])
         else SameAt(f, after, root)
  {
    NoneAccepted(records, host);
  }

  lemma NoReader(f: Files, records: seq<Record>, io: Weather, host: Host)
    requires !io.canRead
    ensures Batch(f, records, io, HourReaderOf(host)) == f
    ensures Emit(State(f, 0, [], []), records, io, HourReaderOf(host)).state.errors
      == if records == [] then [] else [(RootIndexPath(), Failure.NoReader)]
  {}
}
