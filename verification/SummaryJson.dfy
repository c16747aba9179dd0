/**
 * The JSON text of a summary means the summary: read by the grammar of RFC 8259 it gives the members
 * that are present, and it holds no lone surrogate (packages/asana/src/summary.ts:50-76).
 */
module SummaryJson {
  import opened Wrappers
  import opened JsStrings
  import opened EventSummaries
  import UriCodec

  // ---------------------------------------------------------------------------
  // A reader of JSON without numbers and literals, which summaries do not have
  // ---------------------------------------------------------------------------

  datatype Value =
    | Text(text: Str)
    | List(items: seq<Value>)
    | Fields(members: seq<(Str, Value)>)

  const MARKS: CodeUnit := '"' as int
  const ESCAPE: CodeUnit := '\\' as int
  const SEPARATOR: CodeUnit := ',' as int
  const COLON: CodeUnit := ':' as int

  /** The unit behind a letter after a backslash. */
  function Unescape(letter: CodeUnit): Option<CodeUnit> {
    if letter == MARKS || letter == ESCAPE || letter == SLASH then Some(letter)
    else if letter == 'b' as int then Some(8)
    else if letter == 't' as int then Some(9)
    else if letter == 'n' as int then Some(10)
    else if letter == 'f' as int then Some(12)
    else if letter == 'r' as int then Some(13)
    else None
  }

  function HexFour(s: Str): Option<CodeUnit>
    requires |s| == 4
  {
    var a :- UriCodec.HexValue(s[0]);
    var b :- UriCodec.HexValue(s[1]);
    var c :- UriCodec.HexValue(s[2]);
    var d :- UriCodec.HexValue(s[3]);
    if 0 <= a < 16 && 0 <= b < 16 && 0 <= c < 16 && 0 <= d < 16 then Some(4096 * a + 256 * b + 16 * c + d) else None
  }

  /** One unit of a text and what follows it. */
  function ReadUnit(s: Str): (r: Option<(CodeUnit, Str)>)
    ensures r.Some? ==> |r.value.1| < |s|
  {
    if s == [] || s[0] < 32 || s[0] == MARKS then None
    else if s[0] != ESCAPE then Some((s[0], s[1..]))
    else if |s| < 2 then None
    else if s[1] != 'u' as int then
      var c :- Unescape(s[1]);
      Some((c, s[2..]))
    else if |s| < 6 then None
    else
      var c :- HexFour(s[2..6]);
      Some((c, s[6..]))
  }

  /** A text from after its opening quote, and what follows its closing one. */
  function ReadText(s: Str): (r: Option<(Str, Str)>)
    ensures r.Some? ==> |r.value.1| < |s|
    decreases |s|
  {
    if s != [] && s[0] == MARKS then Some(([], s[1..]))
    else
      var unit :- ReadUnit(s);
      var more :- ReadText(unit.1);
      Some(([unit.0] + more.0, more.1))
  }

  function ReadValue(s: Str): (r: Option<(Value, Str)>)
    ensures r.Some? ==> |r.value.1| < |s|
    decreases |s|, 0
  {
    if s == [] then None
    else if s[0] == MARKS then
      var text :- ReadText(s[1..]);
      Some((Text(text.0), text.1))
    else if s[0] == '[' as int then
      if |s| > 1 && s[1] == ']' as int then Some((List([]), s[2..]))
      else
        var items :- ReadItems(s[1..]);
        Some((List(items.0), items.1))
    else if s[0] == '{' as int then
      if |s| > 1 && s[1] == '}' as int then Some((Fields([]), s[2..]))
      else
        var members :- ReadMembers(s[1..]);
        Some((Fields(members.0), members.1))
    else None
  }

  /** The items up to the closing bracket. */
  function ReadItems(s: Str): (r: Option<(seq<Value>, Str)>)
    ensures r.Some? ==> |r.value.1| < |s|
    decreases |s|, 1
  {
    var first :- ReadValue(s);
    if first.1 != [] && first.1[0] == ']' as int then Some(([first.0], first.1[1..]))
    else if first.1 != [] && first.1[0] == SEPARATOR then
      var more :- ReadItems(first.1[1..]);
      Some(([first.0] + more.0, more.1))
    else None
  }

  function ReadMember(s: Str): (r: Option<((Str, Value), Str)>)
    ensures r.Some? ==> |r.value.1| < |s|
    decreases |s|, 1
  {
    if s == [] || s[0] != MARKS then None
    else
      var key :- ReadText(s[1..]);
      if key.1 == [] || key.1[0] != COLON then None
      else
        var value :- ReadValue(key.1[1..]);
        Some(((key.0, value.0), value.1))
  }

  /** The members up to the closing brace. */
  function ReadMembers(s: Str): (r: Option<(seq<(Str, Value)>, Str)>)
    ensures r.Some? ==> |r.value.1| < |s|
    decreases |s|, 2
  {
    var first :- ReadMember(s);
    if first.1 != [] && first.1[0] == '}' as int then Some(([first.0], first.1[1..]))
    else if first.1 != [] && first.1[0] == SEPARATOR then
      var more :- ReadMembers(first.1[1..]);
      Some(([first.0] + more.0, more.1))
    else None
  }

  // ---------------------------------------------------------------------------
  // Texts
  // ---------------------------------------------------------------------------

  lemma Digits(c: CodeUnit)
    ensures 0 <= c / 4096 < 16
    ensures 4096 * (c / 4096) + 256 * (c / 256 % 16) + 16 * (c / 16 % 16) + c % 16 == c
  {}

  lemma FourRead(a: int, b: int, c: int, d: int)
    requires 0 <= a < 16 && 0 <= b < 16 && 0 <= c < 16 && 0 <= d < 16
    ensures HexFour([Hex(a), Hex(b), Hex(c), Hex(d)]) == Some(4096 * a + 256 * b + 16 * c + d)
  {}

  lemma HexReads(c: CodeUnit)
    ensures HexFour(UnicodeEscape(c)[2..]) == Some(c)
  {
    Digits(c);
    var w, x, y, z := c / 4096, c / 256 % 16, c / 16 % 16, c % 16;
    FourRead(w, x, y, z);
    assert UnicodeEscape(c)[2..] == [Hex(w), Hex(x), Hex(y), Hex(z)];
  }

  lemma UnitReads(c: CodeUnit, lone: bool, rest: Str)
    ensures ReadUnit(EscapeUnit(c, lone) + rest) == Some((c, rest))
    ensures EscapeUnit(c, lone)[0] != QUOTE
  {
    var s := EscapeUnit(c, lone) + rest;
    if EscapeUnit(c, lone) == UnicodeEscape(c) {
      HexReads(c);
      assert s[2..6] == UnicodeEscape(c)[2..] && s[6..] == rest;
    } else {
      assert s[|EscapeUnit(c, lone)|..] == rest;
    }
  }

  lemma UnitThenText(unit: Str, c: CodeUnit, after: Str, text: Str, rest: Str)
    requires unit != [] && unit[0] != QUOTE && ReadUnit(unit + after) == Some((c, after))
    requires ReadText(after) == Some((text, rest))
    ensures ReadText(unit + after) == Some(([c] + text, rest))
  {}

  lemma SingleReads(c: CodeUnit, lone: bool, after: Str, text: Str, rest: Str)
    requires ReadText(after) == Some((text, rest))
    ensures ReadText(EscapeUnit(c, lone) + after) == Some(([c] + text, rest))
  {
    UnitReads(c, lone, after);
    UnitThenText(EscapeUnit(c, lone), c, after, text, rest);
  }

  lemma PairReads(lead: CodeUnit, trail: CodeUnit, after: Str, text: Str, rest: Str)
    requires UriCodec.IsLead(lead) && UriCodec.IsTrail(trail) && ReadText(after) == Some((text, rest))
    ensures ReadText([lead, trail] + after) == Some(([lead, trail] + text, rest))
  {
    SingleReads(trail, false, after, text, rest);
    SingleReads(lead, false, [trail] + after, [trail] + text, rest);
    assert [lead, trail] + after == [lead] + ([trail] + after);
    assert [lead, trail] + text == [lead] + ([trail] + text);
  }

  lemma Regroup(a: Str, b: Str, c: Str)
    ensures a + b + c == a + (b + c)
  {}

  lemma EscapedHead(s: Str, tail: Str)
    requires s != []
    ensures
      if |s| >= 2 && UriCodec.IsLead(s[0]) && UriCodec.IsTrail(s[1]) then
        Escaped(s) + tail == [s[0], s[1]] + (Escaped(s[2..]) + tail)
      else
        Escaped(s) + tail
        == EscapeUnit(s[0], UriCodec.IsLead(s[0]) || UriCodec.IsTrail(s[0])) + (Escaped(s[1..]) + tail)
  {
    if |s| >= 2 && UriCodec.IsLead(s[0]) && UriCodec.IsTrail(s[1]) {
      Regroup([s[0], s[1]], Escaped(s[2..]), tail);
    } else {
      Regroup(EscapeUnit(s[0], UriCodec.IsLead(s[0]) || UriCodec.IsTrail(s[0])), Escaped(s[1..]), tail);
    }
  }

  /** A printed text reads back, whatever it holds. */
  lemma {:induction false} TextReadsBack(s: Str, rest: Str)
    ensures ReadText(Escaped(s) + ([QUOTE] + rest)) == Some((s, rest))
    decreases |s|
  {
    var tail := [QUOTE] + rest;
    if s == [] {
      assert Escaped(s) + tail == tail && tail[1..] == rest;
    } else {
      EscapedHead(s, tail);
      if |s| >= 2 && UriCodec.IsLead(s[0]) && UriCodec.IsTrail(s[1]) {
        TextReadsBack(s[2..], rest);
        PairReads(s[0], s[1], Escaped(s[2..]) + tail, s[2..], rest);
        assert [s[0], s[1]] + s[2..] == s;
      } else {
        TextReadsBack(s[1..], rest);
        SingleReads(s[0], UriCodec.IsLead(s[0]) || UriCodec.IsTrail(s[0]), Escaped(s[1..]) + tail, s[1..], rest);
        assert [s[0]] + s[1..] == s;
      }
    }
  }

  // ---------------------------------------------------------------------------
  // Lists and members
  // ---------------------------------------------------------------------------

  /** The text, whatever follows it, is read as the value. */
  ghost predicate ReadsAs(text: Str, value: Value) {
    forall rest: Str :: ReadValue(text + rest) == Some((value, rest))
  }

  lemma Enclosed(first: CodeUnit, inner: Str, last: CodeUnit, rest: Str)
    ensures [first] + inner + [last] + rest == [first] + (inner + ([last] + rest))
  {}

  lemma OpenedText(body: Str, text: Str, rest: Str)
    requires ReadText(body) == Some((text, rest))
    ensures ReadValue([QUOTE] + body) == Some((Text(text), rest))
  {
    assert ([QUOTE] + body)[1..] == body;
  }

  lemma QuotedReads(s: Str)
    ensures ReadsAs(Quoted(s), Text(s))
  {
    forall rest: Str ensures ReadValue(Quoted(s) + rest) == Some((Text(s), rest)) {
      TextReadsBack(s, rest);
      OpenedText(Escaped(s) + ([QUOTE] + rest), s, rest);
      Enclosed(QUOTE, Escaped(s), QUOTE, rest);
    }
  }

  lemma JoinedHead(parts: seq<Str>, tail: Str)
    requires |parts| > 1
    ensures CommaJoined(parts) + tail == parts[0] + ([COMMA] + (CommaJoined(parts[1..]) + tail))
  {
    Regroup(parts[0] + [COMMA], CommaJoined(parts[1..]), tail);
    Regroup(parts[0], [COMMA], CommaJoined(parts[1..]) + tail);
  }

  lemma {:induction false} ItemsRead(parts: seq<Str>, values: seq<Value>, rest: Str)
    requires |parts| == |values| > 0 && forall i :: 0 <= i < |parts| ==> ReadsAs(parts[i], values[i])
    ensures ReadItems(CommaJoined(parts) + ([93] + rest)) == Some((values, rest))
  {
    var tail := [93] + rest;
    assert ReadsAs(parts[0], values[0]);
    if |parts| == 1 {
      assert tail[1..] == rest && values == [values[0]];
    } else {
      ItemsRead(parts[1..], values[1..], rest);
      JoinedHead(parts, tail);
      var after := [COMMA] + (CommaJoined(parts[1..]) + tail);
      assert after[1..] == CommaJoined(parts[1..]) + tail;
      assert values == [values[0]] + values[1..];
    }
  }

  function Texts(items: seq<Str>): (r: seq<Value>)
    ensures |r| == |items|
  {
    seq(|items|, i requires 0 <= i < |items| => Text(items[i]))
  }

  lemma OpenedList(body: Str, values: seq<Value>, rest: Str)
    requires body != [] && body[0] != 93 && ReadItems(body) == Some((values, rest))
    ensures ReadValue([91] + body) == Some((List(values), rest))
  {
    assert ([91] + body)[1..] == body;
  }

  lemma JoinedStarts(parts: seq<Str>, tail: Str)
    requires parts != [] && parts[0] != []
    ensures (CommaJoined(parts) + tail)[0] == parts[0][0]
  {}

  lemma EmptyList(rest: Str)
    ensures ReadValue([91] + [] + [93] + rest) == Some((List([]), rest))
  {
    assert ([91] + [] + [93] + rest)[2..] == rest;
  }

  lemma ListReads(items: seq<Str>)
    ensures ReadsAs(ArrayText(items), List(Texts(items)))
  {
    forall rest: Str ensures ReadValue(ArrayText(items) + rest) == Some((List(Texts(items)), rest)) {
      var parts, values := QuotedAll(items), Texts(items);
      if items == [] {
        EmptyList(rest);
      } else {
        forall i | 0 <= i < |parts| ensures ReadsAs(parts[i], values[i]) { QuotedReads(items[i]); }
        ItemsRead(parts, values, rest);
        JoinedStarts(parts, [93] + rest);
        OpenedList(CommaJoined(parts) + ([93] + rest), values, rest);
        Enclosed(91, CommaJoined(parts), 93, rest);
      }
    }
  }

  ghost predicate MemberReadsAs(part: Str, member: (Str, Value)) {
    part != [] && part[0] == QUOTE && forall rest: Str :: ReadMember(part + rest) == Some((member, rest))
  }

  lemma OpenedMember(body: Str, key: Str, text: Str, value: Value, rest: Str)
    requires ReadText(body) == Some((key, [COLON] + text)) && ReadValue(text) == Some((value, rest))
    ensures ReadMember([QUOTE] + body) == Some(((key, value), rest))
  {
    assert ([QUOTE] + body)[1..] == body && ([COLON] + text)[1..] == text;
  }

  lemma MemberShape(inner: Str, text: Str, rest: Str)
    ensures [QUOTE] + inner + [QUOTE] + [COLON] + text + rest
         == [QUOTE] + (inner + ([QUOTE] + ([COLON] + (text + rest))))
  {}

  lemma MemberReads(key: Str, text: Str, value: Value)
    requires ReadsAs(text, value)
    ensures MemberReadsAs(Member(key, text), (key, value))
  {
    forall rest: Str ensures ReadMember(Member(key, text) + rest) == Some(((key, value), rest)) {
      var after := [COLON] + (text + rest);
      TextReadsBack(key, after);
      OpenedMember(Escaped(key) + ([QUOTE] + after), key, text + rest, value, rest);
      MemberShape(Escaped(key), text, rest);
    }
  }

  ghost predicate PartsRead(parts: seq<Str>, members: seq<(Str, Value)>) {
    |parts| == |members| && forall i :: 0 <= i < |parts| ==> MemberReadsAs(parts[i], members[i])
  }

  lemma MemberThenMore(part: Str, member: (Str, Value), more: Str, members: seq<(Str, Value)>, rest: Str)
    requires MemberReadsAs(part, member) && ReadMembers(more) == Some((members, rest))
    ensures ReadMembers(part + ([COMMA] + more)) == Some(([member] + members, rest))
  {
    assert ([COMMA] + more)[1..] == more;
  }

  lemma {:induction false} MembersRead(parts: seq<Str>, members: seq<(Str, Value)>, rest: Str)
    requires PartsRead(parts, members) && parts != []
    ensures ReadMembers(CommaJoined(parts) + ([125] + rest)) == Some((members, rest))
  {
    var tail := [125] + rest;
    assert MemberReadsAs(parts[0], members[0]);
    if |parts| == 1 {
      assert tail[1..] == rest && members == [members[0]];
    } else {
      MembersRead(parts[1..], members[1..], rest);
      JoinedHead(parts, tail);
      MemberThenMore(parts[0], members[0], CommaJoined(parts[1..]) + tail, members[1..], rest);
      assert members == [members[0]] + members[1..];
    }
  }

  lemma OpenedObject(body: Str, members: seq<(Str, Value)>, rest: Str)
    requires body != [] && body[0] != 125 && ReadMembers(body) == Some((members, rest))
    ensures ReadValue([123] + body) == Some((Fields(members), rest))
  {
    assert ([123] + body)[1..] == body;
  }

  lemma EmptyObject(rest: Str)
    ensures ReadValue([123] + [] + [125] + rest) == Some((Fields([]), rest))
  {
    assert ([123] + [] + [125] + rest)[2..] == rest;
  }

  lemma ObjectReads(parts: seq<Str>, members: seq<(Str, Value)>)
    requires PartsRead(parts, members)
    ensures ReadsAs(ObjectText(parts), Fields(members))
  {
    forall rest: Str ensures ReadValue(ObjectText(parts) + rest) == Some((Fields(members), rest)) {
      if parts == [] {
        EmptyObject(rest);
      } else {
        assert MemberReadsAs(parts[0], members[0]);
        MembersRead(parts, members, rest);
        JoinedStarts(parts, [125] + rest);
        OpenedObject(CommaJoined(parts) + ([125] + rest), members, rest);
        Enclosed(123, CommaJoined(parts), 125, rest);
      }
    }
  }

  // ---------------------------------------------------------------------------
  // Summaries
  // ---------------------------------------------------------------------------

  type Table = seq<(Str, Option<Value>)>

  /** The entries that are present. */
  function Present(table: Table): seq<(Str, Value)> {
    if table == [] then []
    else
      var last := table[|table| - 1];
      Present(table[..|table| - 1]) + if last.1.Some? then [(last.0, last.1.value)] else []
  }

  function TextValue(text: Option<Str>): Option<Value> { match text case None => None case Some(t) => Some(Text(t)) }

  function ListValue(items: Option<seq<Str>>): Option<Value> {
    match items case None => None case Some(list) => Some(List(Texts(list)))
  }

  function ActorTable(a: Actor): Table {
    [(U("id"), Some(Text(a.id))), (U("displayName"), TextValue(a.displayName))]
  }

  function ActorValue(actor: Option<Actor>): Option<Value> {
    match actor case None => None case Some(a) => Some(Fields(Present(ActorTable(a))))
  }

  /** What a summary says, key by key. */
  function SummaryTable(s: Summary): Table {
    [(U("title"), TextValue(s.title)), (U("status"), TextValue(s.status)), (U("labels"), ListValue(s.labels)),
     (U("actor"), ActorValue(s.actor)), (U("fieldsChanged"), ListValue(s.fieldsChanged)),
     (U("tags"), ListValue(s.tags))]
  }

  ghost predicate PieceReads(piece: seq<Str>, entry: (Str, Option<Value>)) {
    if entry.1.None? then piece == [] else |piece| == 1 && MemberReadsAs(piece[0], (entry.0, entry.1.value))
  }

  lemma PieceMore(parts: seq<Str>, table: Table, piece: seq<Str>, entry: (Str, Option<Value>))
    requires PartsRead(parts, Present(table)) && PieceReads(piece, entry)
    ensures PartsRead(parts + piece, Present(table + [entry]))
  {
    assert (table + [entry])[..|table|] == table;
  }

  lemma TwoPieces(a: seq<Str>, b: seq<Str>, ta: (Str, Option<Value>), tb: (Str, Option<Value>))
    requires PieceReads(a, ta) && PieceReads(b, tb)
    ensures PartsRead(a + b, Present([ta, tb]))
  {
    PieceMore([], [], a, ta);
    assert [] + a == a && [] + [ta] == [ta] && [ta] + [tb] == [ta, tb];
    PieceMore(a, [ta], b, tb);
  }

  lemma TextPiece(key: Str, text: Option<Str>)
    ensures PieceReads(TextMember(key, text), (key, TextValue(text)))
  {
    if text.Some? {
      QuotedReads(text.value);
      MemberReads(key, Quoted(text.value), Text(text.value));
    }
  }

  lemma ListPiece(key: Str, items: Option<seq<Str>>)
    ensures PieceReads(ArrayMember(key, items), (key, ListValue(items)))
  {
    if items.Some? {
      ListReads(items.value);
      MemberReads(key, ArrayText(items.value), List(Texts(items.value)));
    }
  }

  lemma ActorPiece(actor: Option<Actor>)
    ensures PieceReads(ActorMember(actor), (U("actor"), ActorValue(actor)))
  {
    if actor.Some? {
      var a := actor.value;
      var id, name := TextMember(U("id"), Some(a.id)), TextMember(U("displayName"), a.displayName);
      TextPiece(U("id"), Some(a.id));
      TextPiece(U("displayName"), a.displayName);
      TwoPieces(id, name, ActorTable(a)[0], ActorTable(a)[1]);
      ObjectReads(id + name, Present(ActorTable(a)));
      MemberReads(U("actor"), ObjectText(id + name), Fields(Present(ActorTable(a))));
    }
  }

  lemma TwoMore(parts: seq<Str>, table: Table, a: seq<Str>, b: seq<Str>, ta: (Str, Option<Value>),
                tb: (Str, Option<Value>))
    requires PartsRead(parts, Present(table)) && PieceReads(a, ta) && PieceReads(b, tb)
    ensures PartsRead(parts + a + b, Present(table + [ta, tb]))
  {
    PieceMore(parts, table, a, ta);
    PieceMore(parts + a, table + [ta], b, tb);
    assert table + [ta] + [tb] == table + [ta, tb];
  }

  lemma SixPieces(a: seq<Str>, b: seq<Str>, c: seq<Str>, d: seq<Str>, e: seq<Str>, f: seq<Str>, t: Table)
    requires |t| == 6 && PieceReads(a, t[0]) && PieceReads(b, t[1]) && PieceReads(c, t[2])
    requires PieceReads(d, t[3]) && PieceReads(e, t[4]) && PieceReads(f, t[5])
    ensures PartsRead(a + b + c + d + e + f, Present(t))
  {
    TwoPieces(a, b, t[0], t[1]);
    TwoMore(a + b, [t[0], t[1]], c, d, t[2], t[3]);
    TwoMore(a + b + c + d, [t[0], t[1]] + [t[2], t[3]], e, f, t[4], t[5]);
    assert [t[0], t[1]] + [t[2], t[3]] + [t[4], t[5]] == t;
  }

  lemma MembersReadAs(s: Summary)
    ensures PartsRead(Members(s), Present(SummaryTable(s)))
  {
    TextPiece(U("title"), s.title);
    TextPiece(U("status"), s.status);
    ListPiece(U("labels"), s.labels);
    ActorPiece(s.actor);
    ListPiece(U("fieldsChanged"), s.fieldsChanged);
    ListPiece(U("tags"), s.tags);
    SixPieces(TextMember(U("title"), s.title), TextMember(U("status"), s.status),
              ArrayMember(U("labels"), s.labels), ActorMember(s.actor),
              ArrayMember(U("fieldsChanged"), s.fieldsChanged), ArrayMember(U("tags"), s.tags), SummaryTable(s));
  }

  lemma ReadsAlone(text: Str, value: Value)
    requires ReadsAs(text, value)
    ensures ReadValue(text) == Some((value, []))
  {
    assert text + [] == text;
  }

  /** The JSON of a summary reads back as the entries that are present, and nothing follows them. */
  lemma SummaryReadsBack(s: Summary)
    ensures ReadValue(Json(s)) == Some((Fields(Present(SummaryTable(s))), []))
  {
    MembersReadAs(s);
    ObjectReads(Members(s), Present(SummaryTable(s)));
    ReadsAlone(ObjectText(Members(s)), Fields(Present(SummaryTable(s))));
  }

  predicate Alike(t: Table, u: Table) { |t| == |u| && forall i :: 0 <= i < |t| ==> t[i].0 == u[i].0 }

  predicate KeysDistinct(t: Table) { forall i, j :: 0 <= i < j < |t| ==> t[i].0 != t[j].0 }

  lemma {:induction false} PresentHas(t: Table, key: Str, value: Value)
    ensures (key, value) in Present(t) <==> (key, Some(value)) in t
  {
    if t != [] {
      PresentHas(t[..|t| - 1], key, value);
      assert t == t[..|t| - 1] + [t[|t| - 1]];
    }
  }

  lemma EntryCarried(t: Table, u: Table, i: nat, value: Value)
    requires Alike(t, u) && KeysDistinct(t) && Present(t) == Present(u) && i < |t| && t[i].1 == Some(value)
    ensures u[i].1 == Some(value)
  {
    PresentHas(t, t[i].0, value);
    PresentHas(u, t[i].0, value);
    assert t[i] in t;
    var j :| 0 <= j < |u| && u[j] == (t[i].0, Some(value));
    assert t[j].0 == t[i].0;
  }

  /** What is present under distinct keys determines the table. */
  lemma PresentDetermines(t: Table, u: Table)
    requires Alike(t, u) && KeysDistinct(t) && Present(t) == Present(u)
    ensures t == u
  {
    forall i | 0 <= i < |t| ensures t[i] == u[i] {
      if t[i].1.Some? { EntryCarried(t, u, i, t[i].1.value); }
      if u[i].1.Some? { EntryCarried(u, t, i, u[i].1.value); }
    }
  }

  lemma ListsDetermine(a: Option<seq<Str>>, b: Option<seq<Str>>)
    requires ListValue(a) == ListValue(b)
    ensures a == b
  {
    if a.Some? { TextsDetermine(a.value, b.value); }
  }

  lemma TextsDetermine(a: seq<Str>, b: seq<Str>)
    requires Texts(a) == Texts(b)
    ensures a == b
  {
    assert |Texts(a)| == |Texts(b)|;
    forall i | 0 <= i < |a| ensures a[i] == b[i] { assert Texts(a)[i] == Texts(b)[i]; }
  }

  lemma KeysDiffer(s: Summary)
    ensures KeysDistinct(SummaryTable(s)) && U("id") != U("displayName")
  {
    assert U("title")[1] == 105 && U("status")[1] == 116 && U("labels")[1] == 97 && U("actor")[1] == 99
      && U("fieldsChanged")[1] == 105 && U("tags")[1] == 97;
  }

  lemma ActorsDetermine(a: Option<Actor>, b: Option<Actor>)
    requires ActorValue(a) == ActorValue(b)
    ensures a == b
  {
    if a.Some? {
      assert U("id")[0] == 105 && U("displayName")[0] == 100;
      PresentDetermines(ActorTable(a.value), ActorTable(b.value));
      TablesDetermineActors(a.value, b.value);
    }
  }

  lemma TablesDetermineActors(a: Actor, b: Actor)
    requires ActorTable(a) == ActorTable(b)
    ensures a == b
  {
    assert ActorTable(a)[0].1 == ActorTable(b)[0].1 && ActorTable(a)[1].1 == ActorTable(b)[1].1;
  }

  /** Summaries that print alike are the same summary. */
  lemma JsonDetermines(a: Summary, b: Summary)
    requires Json(a) == Json(b)
    ensures a == b
  {
    SummaryReadsBack(a);
    SummaryReadsBack(b);
    KeysDiffer(a);
    PresentDetermines(SummaryTable(a), SummaryTable(b));
    TablesDetermine(a, b);
  }

  lemma TablesDetermine(a: Summary, b: Summary)
    requires SummaryTable(a) == SummaryTable(b)
    ensures a == b
  {
    SameEntries(SummaryTable(a), SummaryTable(b));
    ListsDetermine(a.labels, b.labels);
    ListsDetermine(a.fieldsChanged, b.fieldsChanged);
    ListsDetermine(a.tags, b.tags);
    ActorsDetermine(a.actor, b.actor);
  }

  lemma SameEntries(t: Table, u: Table)
    requires t == u && |t| == 6
    ensures t[0].1 == u[0].1 && t[1].1 == u[1].1 && t[2].1 == u[2].1 && t[3].1 == u[3].1 && t[4].1 == u[4].1
    ensures t[5].1 == u[5].1
  {}

  // ---------------------------------------------------------------------------
  // What is escaped
  // ---------------------------------------------------------------------------

  lemma {:induction false} WellFormedConcat(a: Str, b: Str)
    requires UriCodec.WellFormed(a) && UriCodec.WellFormed(b)
    ensures UriCodec.WellFormed(a + b)
    decreases |a|
  {
    if a == [] {
      assert a + b == b;
    } else if UriCodec.IsLead(a[0]) {
      WellFormedConcat(a[2..], b);
      assert (a + b)[2..] == a[2..] + b;
    } else {
      WellFormedConcat(a[1..], b);
      assert (a + b)[1..] == a[1..] + b;
    }
  }

  predicate Ascii(s: Str) { forall c :: c in s ==> c < 128 }

  lemma {:induction false} AsciiWellFormed(s: Str)
    requires Ascii(s)
    ensures UriCodec.WellFormed(s)
  {
    if s != [] {
      assert s[0] in s && forall c :: c in s[1..] ==> c in s;
      AsciiWellFormed(s[1..]);
    }
  }

  lemma UnitWellFormed(c: CodeUnit)
    ensures UriCodec.WellFormed(EscapeUnit(c, UriCodec.IsLead(c) || UriCodec.IsTrail(c)))
  {
    var unit := EscapeUnit(c, UriCodec.IsLead(c) || UriCodec.IsTrail(c));
    if |unit| > 1 { AsciiWellFormed(unit); }
  }

  lemma {:induction false} EscapedWellFormed(s: Str)
    ensures UriCodec.WellFormed(Escaped(s))
    decreases |s|
  {
    if s == [] {
    } else if |s| >= 2 && UriCodec.IsLead(s[0]) && UriCodec.IsTrail(s[1]) {
      EscapedWellFormed(s[2..]);
      WellFormedConcat([s[0], s[1]], Escaped(s[2..]));
    } else {
      EscapedWellFormed(s[1..]);
      UnitWellFormed(s[0]);
      WellFormedConcat(EscapeUnit(s[0], UriCodec.IsLead(s[0]) || UriCodec.IsTrail(s[0])), Escaped(s[1..]));
    }
  }

  lemma QuotedWellFormed(s: Str)
    ensures UriCodec.WellFormed(Quoted(s))
  {
    EscapedWellFormed(s);
    WellFormedConcat([QUOTE], Escaped(s));
    WellFormedConcat([QUOTE] + Escaped(s), [QUOTE]);
  }

  predicate AllWellFormed(parts: seq<Str>) { forall i :: 0 <= i < |parts| ==> UriCodec.WellFormed(parts[i]) }

  lemma {:induction false} JoinedWellFormed(parts: seq<Str>)
    requires AllWellFormed(parts)
    ensures UriCodec.WellFormed(CommaJoined(parts))
    decreases |parts|
  {
    if |parts| > 1 {
      JoinedWellFormed(parts[1..]);
      WellFormedConcat(parts[0], [COMMA]);
      WellFormedConcat(parts[0] + [COMMA], CommaJoined(parts[1..]));
    }
  }

  lemma BracketedWellFormed(first: CodeUnit, inner: Str, last: CodeUnit)
    requires first < 128 && last < 128 && UriCodec.WellFormed(inner)
    ensures UriCodec.WellFormed([first] + inner + [last])
  {
    WellFormedConcat([first], inner);
    WellFormedConcat([first] + inner, [last]);
  }

  lemma MemberWellFormed(key: Str, text: Str)
    requires UriCodec.WellFormed(text)
    ensures UriCodec.WellFormed(Member(key, text))
  {
    QuotedWellFormed(key);
    WellFormedConcat(Quoted(key), [COLON]);
    WellFormedConcat(Quoted(key) + [COLON], text);
  }

  lemma TextMemberWellFormed(key: Str, text: Option<Str>)
    ensures AllWellFormed(TextMember(key, text))
  {
    if text.Some? {
      QuotedWellFormed(text.value);
      MemberWellFormed(key, Quoted(text.value));
    }
  }

  lemma ArrayMemberWellFormed(key: Str, items: Option<seq<Str>>)
    ensures AllWellFormed(ArrayMember(key, items))
  {
    if items.Some? {
      var parts := QuotedAll(items.value);
      forall i | 0 <= i < |parts| ensures UriCodec.WellFormed(parts[i]) { QuotedWellFormed(items.value[i]); }
      JoinedWellFormed(parts);
      BracketedWellFormed(91, CommaJoined(parts), 93);
      MemberWellFormed(key, ArrayText(items.value));
    }
  }

  lemma ActorMemberWellFormed(actor: Option<Actor>)
    ensures AllWellFormed(ActorMember(actor))
  {
    if actor.Some? {
      var parts := TextMember(U("id"), Some(actor.value.id)) + TextMember(U("displayName"), actor.value.displayName);
      TextMemberWellFormed(U("id"), Some(actor.value.id));
      TextMemberWellFormed(U("displayName"), actor.value.displayName);
      JoinedWellFormed(parts);
      BracketedWellFormed(123, CommaJoined(parts), 125);
      MemberWellFormed(U("actor"), ObjectText(parts));
    }
  }

  lemma MembersWellFormed(s: Summary)
    ensures AllWellFormed(Members(s))
  {
    TextMemberWellFormed(U("title"), s.title);
    TextMemberWellFormed(U("status"), s.status);
    ArrayMemberWellFormed(U("labels"), s.labels);
    ActorMemberWellFormed(s.actor);
    ArrayMemberWellFormed(U("fieldsChanged"), s.fieldsChanged);
    ArrayMemberWellFormed(U("tags"), s.tags);
  }

  /** Whatever the texts hold, the JSON of a summary has no lone surrogate. */
  lemma JsonWellFormed(s: Summary)
    ensures UriCodec.WellFormed(Json(s))
  {
    MembersWellFormed(s);
    JoinedWellFormed(Members(s));
    BracketedWellFormed(123, CommaJoined(Members(s)), 125);
  }

  /** A unit that stands for itself in JSON. */
  predicate Literal(c: CodeUnit) { c >= 32 && c != QUOTE && c != BACKSLASH }

  lemma UnitAsItIs(c: CodeUnit, lone: bool)
    ensures |EscapeUnit(c, lone)| >= 1
    ensures |EscapeUnit(c, lone)| == 1 <==> Literal(c) && !lone
    ensures |EscapeUnit(c, lone)| == 1 ==> EscapeUnit(c, lone) == [c]
  {}

  lemma {:induction false} EscapedGrows(s: Str)
    ensures |Escaped(s)| >= |s|
    decreases |s|
  {
    if s == [] {
    } else if |s| >= 2 && UriCodec.IsLead(s[0]) && UriCodec.IsTrail(s[1]) {
      EscapedGrows(s[2..]);
    } else {
      EscapedGrows(s[1..]);
      UnitAsItIs(s[0], UriCodec.IsLead(s[0]) || UriCodec.IsTrail(s[0]));
    }
  }

  lemma SameBehind(front: Str, escaped: Str, rest: Str)
    ensures front + escaped == front + rest <==> escaped == rest
  {
    if front + escaped == front + rest {
      assert escaped == (front + escaped)[|front|..] == (front + rest)[|front|..] == rest;
    }
  }

  predicate Literals(s: Str) { forall c :: c in s ==> Literal(c) }

  lemma LiteralsConcat(a: Str, b: Str)
    ensures Literals(a + b) <==> Literals(a) && Literals(b)
  {
    assert forall c :: c in a ==> c in a + b;
    assert forall c :: c in b ==> c in a + b;
  }

  /** A text without controls, quotes, backslashes and lone surrogates is printed as it is, and no other is. */
  lemma {:induction false} PrintedAsItIs(s: Str)
    ensures Escaped(s) == s <==> UriCodec.WellFormed(s) && Literals(s)
    decreases |s|
  {
    if s == [] {
    } else if |s| >= 2 && UriCodec.IsLead(s[0]) && UriCodec.IsTrail(s[1]) {
      PrintedAsItIs(s[2..]);
      SameBehind([s[0], s[1]], Escaped(s[2..]), s[2..]);
      LiteralsConcat([s[0], s[1]], s[2..]);
      assert s == [s[0], s[1]] + s[2..];
    } else {
      PrintedAsItIs(s[1..]);
      EscapedGrows(s[1..]);
      SameBehind([s[0]], Escaped(s[1..]), s[1..]);
      LiteralsConcat([s[0]], s[1..]);
      UnitAsItIs(s[0], UriCodec.IsLead(s[0]) || UriCodec.IsTrail(s[0]));
      assert s == [s[0]] + s[1..];
    }
  }

  /** The units that have an escape of their own take two, the other escaped ones six. */
  lemma EscapeTakes(c: CodeUnit)
    ensures |Escaped([c])| ==
      if c in {8, 9, 10, 12, 13, QUOTE, BACKSLASH} then 2
      else if c < 32 || UriCodec.IsLead(c) || UriCodec.IsTrail(c) then 6
      else 1
  {}
}
