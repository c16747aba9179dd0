/**
 * Airtable paths and their inverse parsers (packages/airtable/src/path-mapper.ts:37-148).
 */
module AirtablePaths {
  import opened Wrappers
  import opened JsStrings
  import opened PathSegments
  import opened UriCodec

  /** What a path names, its ids decoded. */
  datatype Target =
    | Base(baseId: Str)
    | Table(baseId: Str, tableId: Str)
    | Record(baseId: Str, tableId: Str, recordId: Str)
    | Notification(baseId: Str, webhookId: Str)

  function Bases(rest: seq<Str>, file: Str): Str {
    Join([U("airtable"), U("bases")] + rest + [file + U(".json")])
  }

  function BasePath(baseId: Str): Option<Str> {
    var base :- EncodeSegment(baseId);
    Some(Bases([], base))
  }

  function TablePath(baseId: Str, tableId: Str): Option<Str> {
    var base :- EncodeSegment(baseId);
    var table :- EncodeSegment(tableId);
    Some(Bases([base, U("tables")], table))
  }

  function RecordPath(baseId: Str, tableId: Str, recordId: Str): Option<Str> {
    var base :- EncodeSegment(baseId);
    var table :- EncodeSegment(tableId);
    var record :- EncodeSegment(recordId);
    Some(Bases([base, U("tables"), table, U("records")], record))
  }

  function NotificationPath(baseId: Str, webhookId: Str): Option<Str> {
    var base :- EncodeSegment(baseId);
    var webhook :- EncodeSegment(webhookId);
    Some(Bases([base, U("_notifications")], webhook))
  }

  function PathOf(target: Target): Option<Str> {
    match target
    case Base(b) => BasePath(b)
    case Table(b, t) => TablePath(b, t)
    case Record(b, t, r) => RecordPath(b, t, r)
    case Notification(b, w) => NotificationPath(b, w)
  }

  function Trimmed(target: Target): Target {
    match target
    case Base(b) => Base(Trim(b))
    case Table(b, t) => Table(Trim(b), Trim(t))
    case Record(b, t, r) => Record(Trim(b), Trim(t), Trim(r))
    case Notification(b, w) => Notification(Trim(b), Trim(w))
  }

  datatype Parsed = Is(target: Target) | NoRule | Throws

  /** The segments after /airtable/bases, when the last one ends in .json. */
  function MatchBases(path: Str): Option<(seq<Str>, Str)> {
    var segments :- Split(path);
    if |segments| < 3 || segments[0] != U("airtable") || segments[1] != U("bases") then None
    else
      var stem :- Stem(segments[|segments| - 1]);
      Some((segments[2..|segments| - 1], stem))
  }

  function OrThrows(target: Option<Target>): Parsed { match target case Some(t) => Is(t) case None => Throws }

  function DecodeTable(base: Str, table: Str): Option<Target> {
    var b :- Decode(base);
    var t :- Decode(table);
    Some(Table(b, t))
  }

  function DecodeRecord(base: Str, table: Str, record: Str): Option<Target> {
    var b :- Decode(base);
    var t :- Decode(table);
    var r :- Decode(record);
    Some(Record(b, t, r))
  }

  function DecodeNotification(base: Str, webhook: Str): Option<Target> {
    var b :- Decode(base);
    var w :- Decode(webhook);
    Some(Notification(b, w))
  }

  function DecodeBase(base: Str): Option<Target> {
    var b :- Decode(base);
    Some(Base(b))
  }

  /** parseAirtablePath */
  function ParsePath(path: Str): Parsed {
    match MatchBases(path)
    case None => NoRule
    case Some((rest, stem)) =>
      if rest == [] then OrThrows(DecodeBase(stem))
      else if |rest| == 2 && rest[0] != [] && rest[1] == U("tables") then OrThrows(DecodeTable(rest[0], stem))
      else if |rest| == 4 && rest[0] != [] && rest[1] == U("tables") && rest[2] != [] && rest[3] == U("records")
      then OrThrows(DecodeRecord(rest[0], rest[2], stem))
      else NoRule
  }

  /** parseAirtableNotificationPath */
  function ParseNotificationPath(path: Str): Parsed {
    match MatchBases(path)
    case None => NoRule
    case Some((rest, stem)) =>
      if |rest| == 2 && rest[0] != [] && rest[1] == U("_notifications") then OrThrows(DecodeNotification(rest[0], stem))
      else NoRule
  }

  // ---------------------------------------------------------------------------
  // Round trips
  // ---------------------------------------------------------------------------

  lemma SegmentFacts(value: Str)
    requires EncodeSegment(value).Some?
    ensures EncodeSegment(value).value != [] && Plain(EncodeSegment(value).value)
    ensures Decode(EncodeSegment(value).value) == Some(Trim(value))
  {
    EncodeAlphabet(Trim(value));
    DecodeEncode(Trim(value));
  }

  lemma LiteralsPlain()
    ensures Plain(U("airtable")) && Plain(U("bases")) && Plain(U("tables")) && Plain(U("records"))
      && Plain(U("_notifications"))
    ensures Plain(U(".json")) && |U(".json")| == 5 && U("tables") != U("_notifications")
  {}

  lemma MatchBasesOf(rest: seq<Str>, file: Str)
    requires AllPlain(rest) && Plain(file) && file != []
    ensures MatchBases(Bases(rest, file)) == Some((rest, file))
  {
    LiteralsPlain();
    var segments := [U("airtable"), U("bases")] + rest + [file + U(".json")];
    assert Plain(file + U(".json"));
    SplitJoin(segments);
    StemOf(file);
    assert segments[2..|segments| - 1] == rest;
  }

  lemma BaseRoundTrip(baseId: Str)
    requires BasePath(baseId).Some?
    ensures ParsePath(BasePath(baseId).value) == Is(Base(Trim(baseId)))
      && ParseNotificationPath(BasePath(baseId).value) == NoRule
  {
    SegmentFacts(baseId);
    MatchBasesOf([], EncodeSegment(baseId).value);
  }

  lemma TableRoundTrip(baseId: Str, tableId: Str)
    requires TablePath(baseId, tableId).Some?
    ensures ParsePath(TablePath(baseId, tableId).value) == Is(Table(Trim(baseId), Trim(tableId)))
    ensures ParseNotificationPath(TablePath(baseId, tableId).value) == NoRule
  {
    LiteralsPlain();
    SegmentFacts(baseId);
    SegmentFacts(tableId);
    MatchBasesOf([EncodeSegment(baseId).value, U("tables")], EncodeSegment(tableId).value);
  }

  lemma RecordParts(base: Str, table: Str, record: Str)
    requires Plain(base) && base != [] && Plain(table) && table != [] && Plain(record) && record != []
    ensures ParsePath(Bases([base, U("tables"), table, U("records")], record))
      == OrThrows(DecodeRecord(base, table, record))
    ensures ParseNotificationPath(Bases([base, U("tables"), table, U("records")], record)) == NoRule
  {
    LiteralsPlain();
    MatchBasesOf([base, U("tables"), table, U("records")], record);
  }

  lemma RecordRoundTrip(baseId: Str, tableId: Str, recordId: Str)
    requires RecordPath(baseId, tableId, recordId).Some?
    ensures ParsePath(RecordPath(baseId, tableId, recordId).value)
      == Is(Record(Trim(baseId), Trim(tableId), Trim(recordId)))
    ensures ParseNotificationPath(RecordPath(baseId, tableId, recordId).value) == NoRule
  {
    SegmentFacts(baseId);
    SegmentFacts(tableId);
    SegmentFacts(recordId);
    RecordParts(EncodeSegment(baseId).value, EncodeSegment(tableId).value, EncodeSegment(recordId).value);
  }

  lemma NotificationRoundTrip(baseId: Str, webhookId: Str)
    requires NotificationPath(baseId, webhookId).Some?
    ensures ParseNotificationPath(NotificationPath(baseId, webhookId).value)
      == Is(Notification(Trim(baseId), Trim(webhookId)))
    ensures ParsePath(NotificationPath(baseId, webhookId).value) == NoRule
  {
    LiteralsPlain();
    SegmentFacts(baseId);
    SegmentFacts(webhookId);
    MatchBasesOf([EncodeSegment(baseId).value, U("_notifications")], EncodeSegment(webhookId).value);
  }

  /** The path parses to the target with its own parser, and with no other. */
  predicate ParsesTo(path: Str, target: Target) {
    if target.Notification? then ParseNotificationPath(path) == Is(target) && ParsePath(path) == NoRule
    else ParsePath(path) == Is(target) && ParseNotificationPath(path) == NoRule
  }

  /** Every printed path parses back, with its own parser only, to its kind and its trimmed ids. */
  lemma PathsParseBack(target: Target)
    requires PathOf(target).Some?
    ensures ParsesTo(PathOf(target).value, Trimmed(target))
  {
    match target
    case Base(b) => BaseRoundTrip(b);
    case Table(b, t) => TableRoundTrip(b, t);
    case Record(b, t, r) => RecordRoundTrip(b, t, r);
    case Notification(b, w) => NotificationRoundTrip(b, w);
  }

  lemma ParsesToOne(path: Str, a: Target, b: Target)
    requires ParsesTo(path, a) && ParsesTo(path, b)
    ensures a == b
  {}

  /** Two printed paths are equal exactly when they name the same thing: the four families never meet. */
  lemma PathsOneToOne(a: Target, b: Target)
    requires PathOf(a).Some? && PathOf(b).Some?
    ensures PathOf(a) == PathOf(b) <==> Trimmed(a) == Trimmed(b)
  {
    if PathOf(a) == PathOf(b) {
      PathsParseBack(a);
      PathsParseBack(b);
      ParsesToOne(PathOf(a).value, Trimmed(a), Trimmed(b));
    } else if Trimmed(a) == Trimmed(b) {
      SamePath(a, b);
    }
  }

  lemma SamePath(a: Target, b: Target)
    requires Trimmed(a) == Trimmed(b)
    ensures PathOf(a) == PathOf(b)
  {
    match a
    case Base(_) =>
    case Table(_, _) =>
    case Record(_, _, _) =>
    case Notification(_, _) =>
  }

  // ---------------------------------------------------------------------------
  // What the parsers accept
  // ---------------------------------------------------------------------------

  predicate Named(segment: Str) { segment != [] && Plain(segment) }

  /** The path is that of encoded ids, each a segment of its own, that decode to the target's ids. */
  ghost predicate Encodes(path: Str, target: Target) {
    match target
    case Base(b) => exists x :: Named(x) && path == Bases([], x) && Decode(x) == Some(b)
    case Table(b, t) => exists x, y ::
      Named(x) && Named(y) && path == Bases([x, U("tables")], y) && Decode(x) == Some(b) && Decode(y) == Some(t)
    case Record(b, t, r) => exists x, y, z ::
      Named(x) && Named(y) && Named(z) && path == Bases([x, U("tables"), y, U("records")], z)
      && Decode(x) == Some(b) && Decode(y) == Some(t) && Decode(z) == Some(r)
    case Notification(b, w) => exists x, y ::
      Named(x) && Named(y) && path == Bases([x, U("_notifications")], y) && Decode(x) == Some(b) && Decode(y) == Some(w)
  }

  lemma MatchedBases(path: Str)
    requires MatchBases(path).Some?
    ensures
      var (rest, stem) := MatchBases(path).value;
      path == Bases(rest, stem) && AllPlain(rest) && Named(stem)
  {
    JoinSplit(path);
    var segments := Split(path).value;
    var last := segments[|segments| - 1];
    var stem := Stem(last).value;
    assert last == stem + U(".json");
    assert Plain(last) && forall i :: 0 <= i < |stem| ==> stem[i] == last[i];
    assert segments == [U("airtable"), U("bases")] + segments[2..|segments| - 1] + [last];
  }

  /** The parsers accept exactly the paths of encoded ids, whether or not a printer made them. */
  lemma ParsesIff(path: Str, target: Target)
    ensures (if target.Notification? then ParseNotificationPath(path) else ParsePath(path)) == Is(target)
      <==> Encodes(path, target)
  {
    if MatchBases(path).Some? {
      MatchedBases(path);
      ParsedEncodes(path, target);
    }
    if Encodes(path, target) { EncodedParses(path, target); }
  }

  lemma ParsedEncodes(path: Str, target: Target)
    requires MatchBases(path).Some?
    requires
      var (rest, stem) := MatchBases(path).value;
      path == Bases(rest, stem) && AllPlain(rest) && Named(stem)
    ensures (if target.Notification? then ParseNotificationPath(path) else ParsePath(path)) == Is(target) ==>
      Encodes(path, target)
  {
    var (rest, stem) := MatchBases(path).value;
    if |rest| == 2 { assert rest == [rest[0], rest[1]]; }
    if |rest| == 4 { assert rest == [rest[0], rest[1], rest[2], rest[3]]; }
  }

  lemma BaseParses(x: Str)
    requires Named(x)
    ensures ParsePath(Bases([], x)) == OrThrows(DecodeBase(x))
  {
    MatchBasesOf([], x);
  }

  lemma TableParses(x: Str, y: Str)
    requires Named(x) && Named(y)
    ensures ParsePath(Bases([x, U("tables")], y)) == OrThrows(DecodeTable(x, y))
  {
    LiteralsPlain();
    MatchBasesOf([x, U("tables")], y);
  }

  lemma RecordParses(x: Str, y: Str, z: Str)
    requires Named(x) && Named(y) && Named(z)
    ensures ParsePath(Bases([x, U("tables"), y, U("records")], z)) == OrThrows(DecodeRecord(x, y, z))
  {
    LiteralsPlain();
    MatchBasesOf([x, U("tables"), y, U("records")], z);
  }

  lemma NotificationParses(x: Str, y: Str)
    requires Named(x) && Named(y)
    ensures ParseNotificationPath(Bases([x, U("_notifications")], y)) == OrThrows(DecodeNotification(x, y))
  {
    LiteralsPlain();
    MatchBasesOf([x, U("_notifications")], y);
  }

  lemma EncodedParses(path: Str, target: Target)
    requires Encodes(path, target)
    ensures (if target.Notification? then ParseNotificationPath(path) else ParsePath(path)) == Is(target)
  {
    match target
    case Base(b) =>
      var x :| Named(x) && path == Bases([], x) && Decode(x) == Some(b);
      BaseParses(x);
    case Table(b, t) =>
      var x, y :| Named(x) && Named(y) && path == Bases([x, U("tables")], y) && Decode(x) == Some(b)
        && Decode(y) == Some(t);
      TableParses(x, y);
    case Record(b, t, r) =>
      var x, y, z :| Named(x) && Named(y) && Named(z) && path == Bases([x, U("tables"), y, U("records")], z)
        && Decode(x) == Some(b) && Decode(y) == Some(t) && Decode(z) == Some(r);
      RecordParses(x, y, z);
    case Notification(b, w) =>
      var x, y :| Named(x) && Named(y) && path == Bases([x, U("_notifications")], y) && Decode(x) == Some(b)
        && Decode(y) == Some(w);
      NotificationParses(x, y);
  }
}
