/**
 * Paths and ids of hourly Workers error rollups, and their inverse parsers
 * (packages/cloudflare/src/path-mapper.ts).
 */
module RollupPaths {
  import opened Wrappers
  import opened JsStrings
  import opened PathSegments
  import opened UriCodec
  import opened Calendar
  import opened Decimals
  import opened IsoText

  type Host = Str -> Option<Time>

  datatype Hour = Hour(date: Str, hour: Str, hourStart: Str)

  lemma IsoLength(t: Time)
    ensures |Iso(t)| >= 24
  {}

  /** The UTC hour bucket of an instant. */
  function HourOf(t: Time): Hour {
    IsoLength(HourFloor(t));
    var iso := Iso(HourFloor(t));
    Hour(iso[..10], iso[11..13], iso)
  }

  /** The hour of a date text; None when the text is not a date and the code throws. */
  function HourOfText(text: Str, host: Host): Option<Hour> {
    match DateParse(text, host)
    case Some(t) => Some(HourOf(t))
    case None => None
  }

  /** cloudflareWorkerErrorRollupHour on texts; None when it throws. */
  type HourReader = Str -> Option<Hour>

  function HourReaderOf(host: Host): HourReader { text => HourOfText(text, host) }

  /** Segments below /cloudflare/workers/errors. */
  function Under(rest: seq<Str>): Str {
    Join([U("cloudflare"), U("workers"), U("errors")] + rest)
  }

  function RootIndexPath(): Str { Under([U("_index.json")]) }

  function ScriptIndexPath(script: Str): Option<Str> {
    var segment :- EncodeSegment(script);
    Some(Under([segment, U("_index.json")]))
  }

  function RollupPath(script: Str, t: Time): Option<Str> {
    var segment :- EncodeSegment(script);
    Some(Under([segment, HourOf(t).date, HourOf(t).hour + U(".json")]))
  }

  function RollupId(script: Str, t: Time): Option<Str> {
    if Trim(script) == [] then None else Some(Trim(script) + [SLASH] + HourOf(t).hourStart)
  }

  /** `\d{4}-\d{2}-\d{2}` */
  predicate DatePattern(s: Str) {
    |s| == 10 && AllDigits(s[0..4]) && s[4] == DASH && AllDigits(s[5..7]) && s[7] == DASH && AllDigits(s[8..10])
  }

  /** `\d{2}\.json` */
  predicate HourFilePattern(s: Str) { |s| == 7 && AllDigits(s[..2]) && s[2..] == U(".json") }

  /** The segments matched by WORKER_ERROR_ROLLUP_PATH_PATTERN: script, date, hour file. */
  function MatchPath(path: Str): Option<(Str, Str, Str)> {
    var segments :- Split(path);
    if |segments| == 6 && segments[..3] == [U("cloudflare"), U("workers"), U("errors")]
       && segments[3] != [] && DatePattern(segments[4]) && HourFilePattern(segments[5])
    then Some((segments[3], segments[4], segments[5]))
    else None
  }

  datatype ParsedPath =
    | Parsed(script: Str, date: Str, hour: Str, hourStart: Str)
    | NoMatch
    | Throws

  /** What the parser makes of the matched segments. */
  function ParseMatched(encoded: Str, date: Str, hour: Str, host: Host): ParsedPath {
    var hourStart := date + HourTail(hour);
    match DateParse(hourStart, host)
    case None => NoMatch
    case Some(t) =>
      if Iso(t) != hourStart then NoMatch
      else
        match Decode(encoded)
        case None => NoMatch
        case Some(script) =>
          if Trim(script) == [] then NoMatch
          else if EncodeSegment(script).None? then Throws
          else if EncodeSegment(script) != Some(encoded) then NoMatch
          else Parsed(script, date, hour, hourStart)
  }

  function ParsePath(path: Str, host: Host): ParsedPath {
    match MatchPath(path)
    case None => NoMatch
    case Some((encoded, date, file)) => ParseMatched(encoded, date, file[..2], host)
  }

  /** `\d{4}-\d{2}-\d{2}T\d{2}:00:00(\.000)?Z` */
  predicate IdHourPattern(s: Str) {
    |s| >= 13 && DatePattern(s[..10]) && s[10] == LETTER_T && AllDigits(s[11..13])
    && (s[13..] == U(":00:00.000Z") || s[13..] == U(":00:00Z"))
  }

  function ParseId(id: Str, read: HourReader): Option<(Str, Str)> {
    var at := LastSlash(id);
    if at <= 0 then None
    else
      var script, rawHour := Trim(id[..at]), id[at + 1..];
      if script == [] || !IdHourPattern(rawHour) then None
      else
        var hour :- read(rawHour);
        Some((script, hour.hourStart))
  }

  // ---------------------------------------------------------------------------
  // Printed hours
  // ---------------------------------------------------------------------------

  lemma HourSlices(date: Str, hour: Str)
    requires |date| == 10 && |hour| == 2
    ensures
      var s := date + HourTail(hour);
      && |s| == 24 && s[..10] == date && s[10] == LETTER_T && s[11..13] == hour && s[13..] == U(":00:00.000Z")
  {}

  lemma DatePatternUnits(date: Str)
    requires DatePattern(date)
    ensures forall c :: c in date ==> IsDigit(c) || c == DASH
  {
    assert date == date[0..4] + [date[4]] + date[5..7] + [date[7]] + date[8..10];
  }

  lemma DatePatternOf(date: Date)
    requires date.Valid() && FourDigit(date.year)
    ensures DatePattern(DateText(date))
  {
    DateTextShape(date);
  }

  /** A bucket keeps its date and hour digits whenever the year has four digits. */
  lemma HourShape(t: Time)
    requires FourDigitYear(HourFloor(t))
    ensures DatePattern(HourOf(t).date) && AllDigits(HourOf(t).hour) && |HourOf(t).hour| == 2
    ensures HourOf(t).hourStart == HourOf(t).date + HourTail(HourOf(t).hour) == Iso(HourFloor(t))
  {
    var h := HourFloor(t);
    HourText(h);
    DatePatternOf(DateAt(h));
    HourSlices(DateText(DateAt(h)), Digits(ClockAt(h).hour, 2));
  }

  lemma HourFileOf(hour: Str)
    requires AllDigits(hour) && |hour| == 2
    ensures HourFilePattern(hour + U(".json")) && (hour + U(".json"))[..2] == hour
    ensures Plain(hour + U(".json"))
  {
    assert (hour + U(".json"))[..2] == hour && (hour + U(".json"))[2..] == U(".json");
  }

  lemma IdHourPatternOf(date: Str, hour: Str)
    requires DatePattern(date) && AllDigits(hour) && |hour| == 2
    ensures IdHourPattern(date + HourTail(hour))
  {
    HourSlices(date, hour);
  }

  /** Outside the four-digit years the date text does not fit the parsers' patterns. */
  lemma LongYearShape(t: Time)
    requires !FourDigitYear(HourFloor(t))
    ensures !DatePattern(HourOf(t).date) && !IdHourPattern(HourOf(t).hourStart)
  {
    var s := Iso(HourFloor(t));
    assert s[0] == DASH || s[0] == 43;
    assert s[..10][0..4][0] == s[0];
  }

  lemma EncodedPlain(script: Str)
    requires EncodeSegment(script).Some?
    ensures Plain(EncodeSegment(script).value) && EncodeSegment(script).value != []
  {
    EncodeAlphabet(Trim(script));
  }

  lemma LiteralsPlain()
    ensures Plain(U("cloudflare")) && Plain(U("workers")) && Plain(U("errors"))
    ensures Plain(U("_index.json")) && Plain(U(".json"))
  {}

  /** Splitting a path under the errors root. */
  lemma SplitUnder(rest: seq<Str>)
    requires AllPlain(rest)
    ensures Split(Under(rest)) == Some([U("cloudflare"), U("workers"), U("errors")] + rest)
  {
    LiteralsPlain();
    SplitJoin([U("cloudflare"), U("workers"), U("errors")] + rest);
  }

  lemma UnderInjective(a: seq<Str>, b: seq<Str>)
    requires AllPlain(a) && AllPlain(b) && Under(a) == Under(b)
    ensures a == b
  {
    SplitUnder(a);
    SplitUnder(b);
    var root := [U("cloudflare"), U("workers"), U("errors")];
    assert a == (root + a)[3..] && b == (root + b)[3..];
  }

  lemma HourPlain(t: Time)
    ensures Plain(HourOf(t).date) && Plain(HourOf(t).hour) && Plain(HourOf(t).hourStart)
  {
    IsoPlain(HourFloor(t));
  }

  lemma IsoPlain(t: Time)
    ensures Plain(Iso(t))
  {
    assert Plain(DateText(DateAt(t)));
    assert Plain(ClockText(ClockAt(t)));
  }

  /** What the parser makes of a path once its script, date and hour digits are known. */
  lemma ParsePathOf(script: Str, date: Str, hour: Str, t: Time, host: Host)
    requires EncodeSegment(script).Some? && Trim(script) == script
    requires DatePattern(date) && Plain(date) && AllDigits(hour) && |hour| == 2
    requires DateParse(date + HourTail(hour), host) == Some(t) && Iso(t) == date + HourTail(hour)
    ensures ParsePath(Under([EncodeSegment(script).value, date, hour + U(".json")]), host)
      == Parsed(script, date, hour, Iso(t))
  {
    EncodedPlain(script);
    HourFileOf(hour);
    MatchPathOf(EncodeSegment(script).value, date, hour + U(".json"));
    DecodeEncode(script);
  }

  lemma MatchPathOf(encoded: Str, date: Str, file: Str)
    requires Plain(encoded) && Plain(date) && Plain(file) && encoded != []
    ensures MatchPath(Under([encoded, date, file]))
      == if DatePattern(date) && HourFilePattern(file) then Some((encoded, date, file)) else None
  {
    SplitUnder([encoded, date, file]);
  }

  /**
   * A printed path parses back to its trimmed script and its floored UTC hour exactly when the
   * year has four digits; in any other year the parser rejects the printer's own output.
   */
  lemma ParseOfPrintedPath(script: Str, t: Time, host: Host)
    requires RollupPath(script, t).Some?
    ensures FourDigitYear(HourFloor(t)) ==>
      ParsePath(RollupPath(script, t).value, host)
      == Parsed(Trim(script), HourOf(t).date, HourOf(t).hour, Iso(HourFloor(t)))
    ensures !FourDigitYear(HourFloor(t)) ==> ParsePath(RollupPath(script, t).value, host) == NoMatch
  {
    var bucket := HourOf(t);
    EncodedPlain(script);
    HourPlain(t);
    TrimTwice(script);
    if FourDigitYear(HourFloor(t)) {
      HourShape(t);
      ParseIsoOfIso(HourFloor(t));
      ParsePathOf(Trim(script), bucket.date, bucket.hour, HourFloor(t), host);
    } else {
      LongYearShape(t);
      LiteralsPlain();
      MatchPathOf(EncodeSegment(script).value, bucket.date, bucket.hour + U(".json"));
    }
  }

  lemma ZeroTail(text: Str, hour: Str)
    requires |text| == 12 && |hour| == 2 && text + [LETTER_Z] == hour + U(":00:00.000Z")
    ensures text[3..5] == [48, 48] && text[6..8] == [48, 48] && text[9..12] == [48, 48, 48]
  {
    var s := hour + U(":00:00.000Z");
    assert forall i :: 0 <= i < 12 ==> text[i] == s[i];
    assert s[3] == s[4] == 48 && s[6] == s[7] == 48;
    assert s[9] == s[10] == s[11] == 48;
  }

  lemma ZeroNumber(n: nat, width: nat, zeros: Str)
    requires n < Pow10(width) && Digits(n, width) == zeros == Digits(0, width)
    ensures n == 0
  {
    NumberOfDigits(n, width);
    NumberOfDigits(0, width);
  }

  /** A clock printed with zero minutes, seconds and milliseconds has none. */
  lemma ZeroClock(clock: Clock, hour: Str)
    requires clock.Valid() && |hour| == 2 && ClockText(clock) + [LETTER_Z] == hour + U(":00:00.000Z")
    ensures clock.minute == 0 && clock.second == 0 && clock.ms == 0
  {
    ZeroTail(ClockText(clock), hour);
    ClockTextShape(clock);
    ZeroDigits();
    Pow10Values();
    ZeroNumber(clock.minute, 2, [48, 48]);
    ZeroNumber(clock.second, 2, [48, 48]);
    ZeroNumber(clock.ms, 3, [48, 48, 48]);
  }

  lemma MultipleOfHour(t: int, days: int, hours: int)
    requires t == days * MS_PER_DAY + hours * MS_PER_HOUR
    ensures t % MS_PER_HOUR == 0
  {
    assert t == (24 * days + hours) * MS_PER_HOUR;
  }

  lemma ZeroClockTime(t: Time)
    requires ClockAt(t).minute == 0 && ClockAt(t).second == 0 && ClockAt(t).ms == 0
    ensures t % MS_PER_HOUR == 0
  {
    WithinOfClock(t % MS_PER_DAY);
    MultipleOfHour(t, t / MS_PER_DAY, ClockAt(t).hour);
  }

  lemma ShortIsoYear(t: Time)
    requires |Iso(t)| == 24
    ensures FourDigitYear(t)
  {}

  /** A text that re-prints from its own hour form is a whole hour of a four-digit year. */
  lemma WholeHour(t: Time, date: Str, hour: Str)
    requires DatePattern(date) && |hour| == 2 && Iso(t) == date + HourTail(hour)
    ensures FourDigitYear(t) && t % MS_PER_HOUR == 0
    ensures HourOf(t) == Hour(date, hour, Iso(t))
  {
    HourSlices(date, hour);
    ShortIsoYear(t);
    IsoParts(t);
    TailOfIso(Iso(t), ClockText(ClockAt(t)), hour);
    ZeroClock(ClockAt(t), hour);
    ZeroClockTime(t);
    assert HourFloor(t) == t;
  }

  lemma TailOfIso(s: Str, clock: Str, hour: Str)
    requires |s| == 24 && |clock| == 12 && s[11..23] == clock && s[23] == LETTER_Z
    requires |hour| == 2 && s[11..13] == hour && s[13..] == U(":00:00.000Z")
    ensures clock + [LETTER_Z] == hour + U(":00:00.000Z")
  {
    assert s[11..] == s[11..23] + [s[23]];
    assert s[11..] == s[11..13] + s[13..];
  }

  lemma MatchedPath(path: Str)
    requires MatchPath(path).Some?
    ensures
      var (encoded, date, file) := MatchPath(path).value;
      && path == Under([encoded, date, file])
      && DatePattern(date) && HourFilePattern(file) && file == file[..2] + U(".json")
  {
    JoinSplit(path);
    SixSegments(Split(path).value);
    HourFileParts(Split(path).value[5]);
  }

  lemma SixSegments(segments: seq<Str>)
    requires |segments| == 6
    ensures segments == segments[..3] + [segments[3], segments[4], segments[5]]
  {}

  lemma HourFileParts(file: Str)
    requires HourFilePattern(file)
    ensures file == file[..2] + U(".json")
  {
    assert file == file[..2] + file[2..];
  }

  /** Whatever the parser accepts, printing the result gives the same path again. */
  lemma AcceptedPathReprints(path: Str, host: Host) returns (t: Time)
    requires ParsePath(path, host).Parsed?
    ensures RollupPath(ParsePath(path, host).script, t) == Some(path)
    ensures FourDigitYear(t) && t % MS_PER_HOUR == 0 && Iso(t) == ParsePath(path, host).hourStart
  {
    var (encoded, date, file) := MatchPath(path).value;
    MatchedPath(path);
    t := DateParse(date + HourTail(file[..2]), host).value;
    WholeHour(t, date, file[..2]);
  }

  /** The parser accepts exactly the printer's image over the years 0000 to 9999. */
  lemma ParserAcceptsPrintedPaths(path: Str, host: Host)
    ensures ParsePath(path, host).Parsed?
      <==> exists script: Str, t: Time :: FourDigitYear(HourFloor(t)) && RollupPath(script, t) == Some(path)
  {
    if ParsePath(path, host).Parsed? {
      var t := AcceptedPathReprints(path, host);
      assert HourFloor(t) == t;
    }
    forall script: Str, t: Time | FourDigitYear(HourFloor(t)) && RollupPath(script, t) == Some(path)
      ensures ParsePath(path, host).Parsed?
    {
      ParseOfPrintedPath(script, t, host);
    }
  }

  /** The date and hour are those of an instant that prints back to them. */
  predicate NamesHour(date: Str, hour: Str, host: Host) {
    match DateParse(date + HourTail(hour), host)
    case None => false
    case Some(t) => Iso(t) == date + HourTail(hour)
  }

  /**
   * The parser throws, instead of returning null, exactly on a well-formed path whose date and hour
   * are an instant's and whose decoded script, trimmed, holds a lone surrogate.
   */
  lemma ParserThrowsOnLoneSurrogate(path: Str, host: Host)
    ensures ParsePath(path, host).Throws? <==>
      MatchPath(path).Some?
        && Unprintable(MatchPath(path).value.0, MatchPath(path).value.1, MatchPath(path).value.2[..2], host)
  {
    if MatchPath(path).Some? && Decode(MatchPath(path).value.0).Some? {
      EncodeDefined(Trim(Decode(MatchPath(path).value.0).value));
    }
  }

  /** Matched segments whose hour prints back but whose script does not. */
  predicate Unprintable(encoded: Str, date: Str, hour: Str, host: Host) {
    NamesHour(date, hour, host) && Decode(encoded).Some? && !WellFormed(Trim(Decode(encoded).value))
  }

  /** So it does on the path of any hour under a raw lone surrogate. */
  lemma RawSurrogateThrows(t: Time, surrogate: CodeUnit, host: Host)
    requires FourDigitYear(HourFloor(t)) && (IsLead(surrogate) || IsTrail(surrogate))
    ensures ParsePath(Under([[surrogate], HourOf(t).date, HourOf(t).hour + U(".json")]), host).Throws?
  {
    var bucket, file := HourOf(t), HourOf(t).hour + U(".json");
    HourShape(t);
    HourPlain(t);
    HourFileOf(bucket.hour);
    MatchPathOf([surrogate], bucket.date, file);
    ParseIsoOfIso(HourFloor(t));
    LoneSurrogate(surrogate);
    ParserThrowsOnLoneSurrogate(Under([[surrogate], bucket.date, file]), host);
  }

  lemma LoneSurrogate(surrogate: CodeUnit)
    requires IsLead(surrogate) || IsTrail(surrogate)
    ensures Plain([surrogate]) && Decode([surrogate]) == Some([surrogate])
    ensures Trim([surrogate]) == [surrogate] && !WellFormed([surrogate])
  {
    DecodeLiteral(surrogate, []);
    assert [surrogate] + [] == [surrogate];
    TrimOfTight([surrogate]);
  }

  /** What the id parser makes of a script and an hour text. */
  lemma ParseIdOf(script: Str, rawHour: Str, read: HourReader)
    requires script != [] && Trim(script) == script && Plain(rawHour)
    ensures ParseId(script + [SLASH] + rawHour, read) ==
      if !IdHourPattern(rawHour) || read(rawHour).None? then None
      else Some((script, read(rawHour).value.hourStart))
  {
    var id := script + [SLASH] + rawHour;
    LastSlashOf(script, rawHour);
    assert id[..|script|] == script && id[|script| + 1..] == rawHour;
  }

  lemma FloorTwice(t: Time)
    ensures HourFloor(HourFloor(t)) == HourFloor(t)
    ensures HourOf(HourFloor(t)) == HourOf(t)
  {}

  /**
   * A printed id parses back to its trimmed script and floored hour, even when the script
   * holds slashes, exactly when the year has four digits.
   */
  lemma ParseOfPrintedId(script: Str, t: Time, host: Host)
    requires RollupId(script, t).Some?
    ensures ParseId(RollupId(script, t).value, HourReaderOf(host))
      == if FourDigitYear(HourFloor(t)) then Some((Trim(script), HourOf(t).hourStart)) else None
  {
    HourPlain(t);
    TrimTwice(script);
    ParseIdOf(Trim(script), HourOf(t).hourStart, HourReaderOf(host));
    if FourDigitYear(HourFloor(t)) {
      HourShape(t);
      IdHourPatternOf(HourOf(t).date, HourOf(t).hour);
      ParseIsoOfIso(HourFloor(t));
      FloorTwice(t);
    } else {
      LongYearShape(t);
    }
  }

  // ---------------------------------------------------------------------------
  // Day paths as the emitter prints them: from the first ten characters of an hour
  // ---------------------------------------------------------------------------

  /** Midnight of a date, as text. */
  function Midnight(date: Str): Str { date + HourTail([48, 48]) }

  /** The start of the day that holds an instant. */
  function DayFloor(t: Time): Time { t / MS_PER_DAY * MS_PER_DAY }

  lemma DayFloorFields(t: Time)
    ensures DateAt(DayFloor(t)) == DateAt(t) && ClockAt(DayFloor(t)) == Clock(0, 0, 0, 0)
    ensures DayFloor(t) % MS_PER_HOUR == 0
  {
    DayAndWithin(t / MS_PER_DAY, 0);
    MultipleOfHour(DayFloor(t), t / MS_PER_DAY, 0);
  }

  lemma DayText(t: Time)
    requires FourDigitYear(t)
    ensures Iso(DayFloor(t)) == Midnight(DateText(DateAt(t)))
  {
    DayFloorFields(t);
    HourText(DayFloor(t));
    ZeroDigits();
  }

  lemma MidnightOfHour(t: Time, host: Host)
    requires FourDigitYear(HourFloor(t))
    ensures HourOfText(Midnight(HourOf(t).date), host).Some?
    ensures HourOfText(Midnight(HourOf(t).date), host).value.date == HourOf(t).date
  {
    var h := HourFloor(t);
    var day := DayFloor(h);
    IsoParts(h);
    DayFloorFields(h);
    DayText(h);
    ParseIsoOfIso(day);
    IsoParts(day);
    assert HourFloor(day) == day;
  }

  // ---------------------------------------------------------------------------
  // Hours as keys
  // ---------------------------------------------------------------------------

  /** An hour text that the emitter reads back as itself, and whose date it reads back too. */
  predicate HourKey(h: Str, hourOf: HourReader) {
    && |h| == 24 && Plain(h[..10])
    && hourOf(h) == Some(Hour(h[..10], h[11..13], h))
    && hourOf(Midnight(h[..10])).Some? && hourOf(Midnight(h[..10])).value.date == h[..10]
  }

  /** Every hour bucket of the years 0000 to 9999 is such a key, whatever the host makes of other texts. */
  lemma BucketIsHourKey(t: Time, host: Host)
    requires FourDigitYear(HourFloor(t))
    ensures HourKey(HourOf(t).hourStart, HourReaderOf(host))
  {
    var h := HourFloor(t);
    IsoParts(h);
    HourPlain(t);
    ParseIsoOfIso(h);
    MidnightOfHour(t, host);
    FloorTwice(t);
  }
}
