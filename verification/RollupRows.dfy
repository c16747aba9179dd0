/**
 * Index rows of the Workers error rollups: the ordered `Map` of rows the emitter edits, its
 * sort, and the row builders (packages/cloudflare/src/emit-auxiliary-files.ts).
 */
module RollupRows {
  import opened Wrappers
  import opened JsStrings
  import opened UriCodec
  import opened RollupPaths

  datatype DayTotals = DayTotals(dayIndexPath: Str, latestHourStart: Str, hours: nat,
                                 events: real, exceptions: real, failures: real, status5xx: real)

  datatype RootLink = RootLink(scriptIndexPath: Str, latestDate: Str)

  datatype Row = Row(id: Str, title: Str, updated: Str, canonicalPath: Str, scriptName: Str, hourStart: Str,
                     events: real, exceptions: real, failures: real, status5xx: real,
                     severity: Option<Str>, topError: Option<(Str, real)>,
                     day: Option<DayTotals>, root: Option<RootLink>)

  datatype TopError = TopError(message: Option<Str>, count: Option<real>)

  /** A rollup record; a field that is missing, or not of the right type, is None. */
  datatype Record = Record(id: Option<Str>, scriptName: Option<Str>, hourStart: Option<Str>, deleted: bool,
                           events: Option<real>, exceptions: Option<real>, failures: Option<real>,
                           status5xx: Option<real>, severity: Option<Str>, topError: Option<TopError>)

  function OrZero(value: Option<real>): real { if value.Some? then value.value else 0.0 }

  // ---------------------------------------------------------------------------
  // Rows as an insertion-ordered Map keyed by id
  // ---------------------------------------------------------------------------

  predicate Distinct(rows: seq<Row>) {
    forall i, j :: 0 <= i < j < |rows| ==> rows[i].id != rows[j].id
  }

  /** `map.set(row.id, row)`: an existing key keeps its place. */
  function Put(rows: seq<Row>, row: Row): seq<Row> {
    if rows == [] then [row]
    else if rows[0].id == row.id then [row] + rows[1..]
    else [rows[0]] + Put(rows[1..], row)
  }

  /** `map.delete(id)`. */
  function Drop(rows: seq<Row>, id: Str): seq<Row> {
    if rows == [] then []
    else if rows[0].id == id then rows[1..]
    else [rows[0]] + Drop(rows[1..], id)
  }

  /** `new Map(rows.map((row) => [row.id, row]))`. */
  function ToMap(rows: seq<Row>): seq<Row> {
    if rows == [] then [] else Put(ToMap(rows[..|rows| - 1]), rows[|rows| - 1])
  }

  /** The lookup table a list of rows denotes: a later row with the same id wins. */
  function ById(rows: seq<Row>): map<Str, Row> {
    if rows == [] then map[] else ById(rows[..|rows| - 1])[rows[|rows| - 1].id := rows[|rows| - 1]]
  }

  /** The list holds each entry of the table once, and nothing else. */
  ghost predicate Tabulates(rows: seq<Row>, table: map<Str, Row>) {
    && Distinct(rows)
    && (forall r :: r in rows ==> r.id in table && table[r.id] == r)
    && (forall k :: k in table ==> table[k] in rows && table[k].id == k)
  }

  lemma {:induction false} PutMembers(rows: seq<Row>, row: Row)
    requires Distinct(rows)
    ensures Distinct(Put(rows, row))
    ensures forall r :: r in Put(rows, row) <==> r == row || (r in rows && r.id != row.id)
  {
    if rows != [] && rows[0].id != row.id {
      PutMembers(rows[1..], row);
      assert rows == [rows[0]] + rows[1..];
    } else if rows != [] {
      assert rows == [rows[0]] + rows[1..];
    }
  }

  lemma {:induction false} DropMembers(rows: seq<Row>, id: Str)
    requires Distinct(rows)
    ensures Distinct(Drop(rows, id))
    ensures forall r :: r in Drop(rows, id) <==> r in rows && r.id != id
  {
    if rows == [] {
    } else {
      assert rows == [rows[0]] + rows[1..];
      if rows[0].id != id { DropMembers(rows[1..], id); }
    }
  }

  lemma PutTabulates(rows: seq<Row>, table: map<Str, Row>, row: Row)
    requires Tabulates(rows, table)
    ensures Tabulates(Put(rows, row), table[row.id := row])
  {
    PutMembers(rows, row);
  }

  lemma DropTabulates(rows: seq<Row>, table: map<Str, Row>, id: Str)
    requires Tabulates(rows, table)
    ensures Tabulates(Drop(rows, id), table - {id})
  {
    DropMembers(rows, id);
  }

  lemma {:induction false} ToMapTabulates(rows: seq<Row>)
    ensures Tabulates(ToMap(rows), ById(rows))
  {
    if rows == [] {
    } else {
      ToMapTabulates(rows[..|rows| - 1]);
      PutTabulates(ToMap(rows[..|rows| - 1]), ById(rows[..|rows| - 1]), rows[|rows| - 1]);
    }
  }

  lemma EmptyTable(rows: seq<Row>, table: map<Str, Row>)
    requires Tabulates(rows, table)
    ensures rows == [] <==> table.Keys == {}
  {
    if rows != [] { assert rows[0] in rows && rows[0].id in table; }
  }

  lemma FrontMembers(rows: seq<Row>)
    requires rows != [] && Distinct(rows)
    ensures Distinct(rows[..|rows| - 1])
    ensures forall r :: r in rows[..|rows| - 1] <==> r in rows && r.id != rows[|rows| - 1].id
  {
    var last, front := rows[|rows| - 1], rows[..|rows| - 1];
    assert rows == front + [last];
    forall r | r in front ensures r.id != last.id {
      var i :| 0 <= i < |front| && front[i] == r;
      assert rows[i] == r;
    }
  }

  lemma DropLast(rows: seq<Row>, table: map<Str, Row>)
    requires rows != [] && Tabulates(rows, table)
    ensures Tabulates(rows[..|rows| - 1], table - {rows[|rows| - 1].id})
  {
    FrontMembers(rows);
  }

  lemma {:induction false} TabulatesById(rows: seq<Row>, table: map<Str, Row>)
    requires Tabulates(rows, table)
    ensures ById(rows) == table
  {
    EmptyTable(rows, table);
    if rows == [] {
    } else {
      DropLast(rows, table);
      TabulatesById(rows[..|rows| - 1], table - {rows[|rows| - 1].id});
      assert rows[|rows| - 1] in rows;
    }
  }

  // ---------------------------------------------------------------------------
  // sortByUpdatedDesc
  // ---------------------------------------------------------------------------

  function Insert(row: Row, sorted: seq<Row>): seq<Row> {
    if sorted != [] && Less(row.updated, sorted[0].updated) then [sorted[0]] + Insert(row, sorted[1..])
    else [row] + sorted
  }

  /** The stable sort by `updated`, latest first. */
  function SortDesc(rows: seq<Row>): seq<Row> {
    if rows == [] then [] else Insert(rows[0], SortDesc(rows[1..]))
  }

  ghost predicate Descending(rows: seq<Row>) {
    forall i, j :: 0 <= i < j < |rows| ==> !Less(rows[i].updated, rows[j].updated)
  }

  ghost predicate StrictlyDescending(rows: seq<Row>) {
    forall i, j :: 0 <= i < j < |rows| ==> Less(rows[j].updated, rows[i].updated)
  }

  lemma {:induction false} InsertMembers(row: Row, sorted: seq<Row>)
    ensures forall r :: r in Insert(row, sorted) <==> r == row || r in sorted
  {
    if sorted != [] && Less(row.updated, sorted[0].updated) {
      InsertMembers(row, sorted[1..]);
      assert sorted == [sorted[0]] + sorted[1..];
    }
  }

  lemma {:induction false} InsertDistinct(row: Row, sorted: seq<Row>)
    requires Distinct(sorted) && forall r :: r in sorted ==> r.id != row.id
    ensures Distinct(Insert(row, sorted))
  {
    if sorted != [] && Less(row.updated, sorted[0].updated) {
      InsertDistinct(row, sorted[1..]);
      InsertMembers(row, sorted[1..]);
      assert forall r :: r in sorted[1..] ==> r.id != sorted[0].id;
    }
  }

  lemma {:induction false} InsertDescending(row: Row, sorted: seq<Row>)
    requires Descending(sorted)
    ensures Descending(Insert(row, sorted))
  {
    if sorted == [] {
    } else {
      if Less(row.updated, sorted[0].updated) {
        InsertDescending(row, sorted[1..]);
        InsertMembers(row, sorted[1..]);
        LessAsymmetric(row.updated, sorted[0].updated);
        forall r | r in sorted[1..] ensures !Less(sorted[0].updated, r.updated) {}
        assert forall r :: r in Insert(row, sorted[1..]) ==> !Less(sorted[0].updated, r.updated);
      } else {
        forall r | r in sorted ensures !Less(row.updated, r.updated) {
          if r != sorted[0] && Less(row.updated, r.updated) {
            assert !Less(sorted[0].updated, r.updated);
            LessTotal(sorted[0].updated, r.updated);
            LessTotal(row.updated, sorted[0].updated);
            if Less(r.updated, sorted[0].updated) { LessTransitive(row.updated, r.updated, sorted[0].updated); }
          }
        }
      }
    }
  }

  lemma {:induction false} SortMembers(rows: seq<Row>)
    ensures forall r :: r in SortDesc(rows) <==> r in rows
    ensures Distinct(rows) ==> Distinct(SortDesc(rows))
    ensures Descending(SortDesc(rows))
  {
    if rows == [] {
    } else {
      var sorted := SortDesc(rows[1..]);
      SortMembers(rows[1..]);
      InsertMembers(rows[0], sorted);
      InsertDescending(rows[0], sorted);
      assert rows == [rows[0]] + rows[1..];
      if Distinct(rows) {
        assert forall r :: r in rows[1..] ==> r.id != rows[0].id;
        InsertDistinct(rows[0], sorted);
      }
    }
  }

  lemma SortTabulates(rows: seq<Row>, table: map<Str, Row>)
    requires Tabulates(rows, table)
    ensures Tabulates(SortDesc(rows), table) && Descending(SortDesc(rows))
  {
    SortMembers(rows);
  }

  /** Rows with different sort keys sort strictly. */
  lemma DescendingStrictly(rows: seq<Row>)
    requires Descending(rows)
    requires forall i, j :: 0 <= i < j < |rows| ==> rows[i].updated != rows[j].updated
    ensures StrictlyDescending(rows)
  {
    forall i, j | 0 <= i < j < |rows| ensures Less(rows[j].updated, rows[i].updated) {
      LessTotal(rows[i].updated, rows[j].updated);
    }
  }

  lemma DropFirst(rows: seq<Row>, table: map<Str, Row>)
    requires rows != [] && Tabulates(rows, table)
    ensures Tabulates(rows[1..], table - {rows[0].id})
  {
    assert rows == [rows[0]] + rows[1..];
    assert forall r :: r in rows[1..] ==> r.id != rows[0].id;
  }

  lemma SameHead(a: seq<Row>, b: seq<Row>, table: map<Str, Row>)
    requires Tabulates(a, table) && Tabulates(b, table) && a != [] && b != []
    requires StrictlyDescending(a) && StrictlyDescending(b)
    ensures a[0] == b[0]
  {
    assert a[0] in a && b[0] in b;
    assert a[0] in b && b[0] in a;
    if a[0] != b[0] {
      var i :| 0 <= i < |b| && b[i] == a[0];
      var j :| 0 <= j < |a| && a[j] == b[0];
      LessAsymmetric(a[0].updated, b[0].updated);
    }
  }

  /** A strictly descending list is determined by the table it lists. */
  lemma {:induction false} StrictlyDescendingUnique(a: seq<Row>, b: seq<Row>, table: map<Str, Row>)
    requires Tabulates(a, table) && Tabulates(b, table)
    requires StrictlyDescending(a) && StrictlyDescending(b)
    ensures a == b
  {
    EmptyTable(a, table);
    EmptyTable(b, table);
    if a == [] {
    } else {
      SameHead(a, b, table);
      DropFirst(a, table);
      DropFirst(b, table);
      StrictlyDescendingUnique(a[1..], b[1..], table - {a[0].id});
    }
  }

  // ---------------------------------------------------------------------------
  // Row builders
  // ---------------------------------------------------------------------------

  /** buildWorkerErrorRollupRow; None when the path printer throws. */
  function BuildRow(script: Str, hourStart: Str, record: Record, hourOf: HourReader): Option<Row> {
    var bucket :- hourOf(hourStart);
    var segment :- EncodeSegment(script);
    var prefix := if |hourStart| < 13 then hourStart else hourStart[..13];
    Some(Row(hourStart, script + U(" ") + prefix + U(":00Z"), hourStart,
             Under([segment, bucket.date, bucket.hour + U(".json")]), script, hourStart,
             OrZero(record.events), OrZero(record.exceptions), OrZero(record.failures), OrZero(record.status5xx),
             ReadString(record.severity), FirstError(record.topError), None, None))
  }

  function FirstError(top: Option<TopError>): Option<(Str, real)> {
    var error :- top;
    var message :- ReadString(error.message);
    Some((message, OrZero(error.count)))
  }

  /** SEVERITY_RANK, with -1 for a label it does not list. */
  function Rank(severity: Str): int {
    if severity == U("info") then 0
    else if severity == U("low") then 1
    else if severity == U("medium") then 2
    else if severity == U("high") then 3
    else if severity == U("critical") then 4
    else -1
  }

  function Severities(rows: seq<Row>): seq<Str> {
    if rows == [] then []
    else (match ReadString(rows[0].severity) case Some(s) => [s] case None => []) + Severities(rows[1..])
  }

  function InsertByRank(severity: Str, sorted: seq<Str>): seq<Str> {
    if sorted != [] && Rank(severity) < Rank(sorted[0]) then [sorted[0]] + InsertByRank(severity, sorted[1..])
    else [severity] + sorted
  }

  /** The stable sort by rank, worst first. */
  function SortByRank(severities: seq<Str>): (r: seq<Str>)
    ensures |r| == |severities|
  {
    if severities == [] then []
    else
      InsertByRankLength(severities[0], SortByRank(severities[1..]));
      InsertByRank(severities[0], SortByRank(severities[1..]))
  }

  lemma InsertByRankLength(severity: Str, sorted: seq<Str>)
    ensures |InsertByRank(severity, sorted)| == |sorted| + 1
  {}

  function WorstSeverity(rows: seq<Row>): Option<Str> {
    var sorted := SortByRank(Severities(rows));
    if sorted == [] then None else Some(sorted[0])
  }

  /** The worst severity is the first label of the highest rank. */
  lemma {:induction false} SortByRankHead(severities: seq<Str>) returns (at: nat)
    requires severities != []
    ensures at < |severities| && SortByRank(severities)[0] == severities[at]
    ensures forall i :: 0 <= i < at ==> Rank(severities[i]) < Rank(severities[at])
    ensures forall i :: 0 <= i < |severities| ==> Rank(severities[i]) <= Rank(severities[at])
  {
    at := 0;
    if |severities| > 1 {
      var rest := severities[1..];
      var k := SortByRankHead(rest);
      assert forall i :: 0 <= i < |rest| ==> rest[i] == severities[i + 1];
      if Rank(severities[0]) < Rank(rest[k]) { at := k + 1; }
      forall i | 0 <= i < |severities| ensures Rank(severities[i]) <= Rank(severities[at]) {
        if i > 0 { assert severities[i] == rest[i - 1]; }
      }
    }
  }

  function Sum(rows: seq<Row>, field: Row -> real): real {
    if rows == [] then 0.0 else field(rows[0]) + Sum(rows[1..], field)
  }

  function Events(row: Row): real { row.events }

  function Exceptions(row: Row): real { row.exceptions }

  function Failures(row: Row): real { row.failures }

  function Status5xx(row: Row): real { row.status5xx }

  /** buildWorkerErrorRollupDayRow: None for a day without hours. */
  function BuildDayRow(script: Str, date: Str, dayIndexPath: Str, hours: seq<Row>): Option<Row> {
    if hours == [] then None
    else
      var latest := hours[0];
      var worst := WorstSeverity(hours);
      Some(latest.(id := date, title := script + U(" ") + date,
                   day := Some(DayTotals(dayIndexPath, latest.id, |hours|,
                                         Sum(hours, Events), Sum(hours, Exceptions),
                                         Sum(hours, Failures), Sum(hours, Status5xx))),
                   severity := if worst.Some? then worst else latest.severity))
  }

  /** The root row of a script: its newest day's row under the script's name. */
  function BuildRootRow(script: Str, scriptIndexPath: Str, latestDay: Row): Row {
    latestDay.(id := script, title := script, root := Some(RootLink(scriptIndexPath, latestDay.id)))
  }

  /**
   * The severity of a day row is never milder than any hour's, and some hour has it; a day
   * whose hours name no severity has none.
   */
  lemma {:induction false} DaySeverity(script: Str, date: Str, path: Str, hours: seq<Row>)
    requires hours != []
    ensures
      var severity := BuildDayRow(script, date, path, hours).value.severity;
      && (forall r :: r in hours && ReadString(r.severity).Some? ==>
           severity.Some? && Rank(ReadString(r.severity).value) <= Rank(severity.value))
      && ((exists r :: r in hours && ReadString(r.severity).Some?) ==>
           exists r :: r in hours && severity == ReadString(r.severity))
  {
    SeveritiesMembers(hours);
    var all := Severities(hours);
    if all != [] {
      var at := SortByRankHead(all);
      assert all[at] in all;
      var r :| r in hours && ReadString(r.severity) == Some(all[at]);
      forall q | q in hours && ReadString(q.severity).Some?
        ensures Rank(ReadString(q.severity).value) <= Rank(all[at])
      {
        var i :| 0 <= i < |all| && all[i] == ReadString(q.severity).value;
      }
    }
  }

  lemma {:induction false} SeveritiesMembers(rows: seq<Row>)
    ensures forall s :: s in Severities(rows) <==> exists r :: r in rows && ReadString(r.severity) == Some(s)
  {
    if rows == [] {
    } else {
      SeveritiesMembers(rows[1..]);
      assert rows == [rows[0]] + rows[1..];
      forall s ensures s in Severities(rows) <==> exists r :: r in rows && ReadString(r.severity) == Some(s) {
        if s in Severities(rows[1..]) {
          var r :| r in rows[1..] && ReadString(r.severity) == Some(s);
          assert r in rows;
        }
        if ReadString(rows[0].severity) == Some(s) { assert rows[0] in rows; }
      }
    }
  }
}
