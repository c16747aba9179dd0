/**
 * Event summaries trimmed to a byte budget (packages/asana/src/summary.ts:50-113, 176-200).
 */
module EventSummaries {
  import opened Wrappers
  import opened JsStrings
  import opened StatusSlugs
  import opened TextWords
  import UriCodec

  const MAX_JSON_LENGTH: nat := 1024

  datatype Actor = Actor(id: Str, displayName: Option<Str>)

  datatype Summary = Summary(title: Option<Str>, status: Option<Str>, labels: Option<seq<Str>>, actor: Option<Actor>,
                             fieldsChanged: Option<seq<Str>>, tags: Option<seq<Str>>)

  // ---------------------------------------------------------------------------
  // JSON.stringify
  // ---------------------------------------------------------------------------

  const QUOTE: CodeUnit := 34
  const BACKSLASH: CodeUnit := 92
  const COMMA: CodeUnit := 44

  function Hex(n: int): CodeUnit
    requires 0 <= n < 16
  {
    if n < 10 then 48 + n else 87 + n
  }

  function UnicodeEscape(c: CodeUnit): Str {
    [BACKSLASH, 117, Hex(c / 4096), Hex(c / 256 % 16), Hex(c / 16 % 16), Hex(c % 16)]
  }

  /** One code unit; `lone` says that it is a surrogate without its partner. */
  function EscapeUnit(c: CodeUnit, lone: bool): Str {
    if c == QUOTE || c == BACKSLASH then [BACKSLASH, c]
    else if c == 8 then [BACKSLASH, 98]
    else if c == 9 then [BACKSLASH, 116]
    else if c == 10 then [BACKSLASH, 110]
    else if c == 12 then [BACKSLASH, 102]
    else if c == 13 then [BACKSLASH, 114]
    else if c < 32 || lone then UnicodeEscape(c)
    else [c]
  }

  function Escaped(s: Str): Str
    decreases |s|
  {
    if s == [] then []
    else if |s| >= 2 && UriCodec.IsLead(s[0]) && UriCodec.IsTrail(s[1]) then [s[0], s[1]] + Escaped(s[2..])
    else EscapeUnit(s[0], UriCodec.IsLead(s[0]) || UriCodec.IsTrail(s[0])) + Escaped(s[1..])
  }

  function Quoted(s: Str): Str { [QUOTE] + Escaped(s) + [QUOTE] }

  function CommaJoined(parts: seq<Str>): Str {
    if parts == [] then [] else if |parts| == 1 then parts[0] else parts[0] + [COMMA] + CommaJoined(parts[1..])
  }

  function QuotedAll(items: seq<Str>): (r: seq<Str>)
    ensures |r| == |items|
  {
    seq(|items|, i requires 0 <= i < |items| => Quoted(items[i]))
  }

  function ArrayText(items: seq<Str>): Str { [91] + CommaJoined(QuotedAll(items)) + [93] }

  function ObjectText(members: seq<Str>): Str { [123] + CommaJoined(members) + [125] }

  function Member(key: Str, text: Str): Str { Quoted(key) + [58] + text }

  function TextMember(key: Str, value: Option<Str>): seq<Str> {
    match value case None => [] case Some(s) => [Member(key, Quoted(s))]
  }

  function ArrayMember(key: Str, value: Option<seq<Str>>): seq<Str> {
    match value case None => [] case Some(items) => [Member(key, ArrayText(items))]
  }

  function ActorMember(actor: Option<Actor>): seq<Str> {
    match actor
    case None => []
    case Some(a) => [Member(U("actor"),
                            ObjectText(TextMember(U("id"), Some(a.id)) + TextMember(U("displayName"), a.displayName)))]
  }

  /** The members that are present, in the order buildSummary lists them. */
  function Members(s: Summary): seq<Str> {
    TextMember(U("title"), s.title) + TextMember(U("status"), s.status) + ArrayMember(U("labels"), s.labels)
    + ActorMember(s.actor) + ArrayMember(U("fieldsChanged"), s.fieldsChanged) + ArrayMember(U("tags"), s.tags)
  }

  function Json(s: Summary): Str { ObjectText(Members(s)) }

  /** How long a summary is: a function so that proofs need not look into JSON. */
  type Measure = Summary -> nat

  function JsonLength(): Measure { s => |Json(s)| }

  // ---------------------------------------------------------------------------
  // Truncation
  // ---------------------------------------------------------------------------

  const ELLIPSIS: Str := U("...")

  /** truncateText: redaction may lengthen the text, the result is never longer than asked. */
  function Truncate(value: Str, maxLength: nat, redact: Str -> Str): (r: Option<Str>)
    ensures r.Some? && maxLength >= 3 ==> |r.value| <= maxLength
    ensures r.Some? ==> r.value != []
  {
    if value == [] then None
    else
      var normalized := Trim(Collapse(redact(value), false));
      if normalized == [] then None
      else if |normalized| <= maxLength then Some(normalized)
      else
        var head := normalized[..if maxLength >= 3 then maxLength - 3 else 0];
        TrimEndKeepsStart(head);
        Some(TrimEnd(head) + ELLIPSIS)
  }

  /** The words of a text with one space between each two. */
  function Plainly(text: Str): Str { Joined(WordsOf(text, NotSpace), SPACE) }

  /** The text cut after n units or at whitespace just before that, with an ellipsis. */
  ghost predicate CutAt(result: Str, text: Str, n: nat) {
    exists k: nat ::
      k <= n <= |text| && result == text[..k] + U("...")
        && (forall i :: k <= i < n ==> IsSpace(text[i])) && (k > 0 ==> !IsSpace(text[k - 1]))
  }

  lemma TrimOfCollapsed(text: Str)
    ensures Trim(Collapse(text, false)) == Plainly(text)
  {
    CollapseIsSpaced(text);
    JoinedTight(WordsOf(text, NotSpace));
    var inner, words := Collapse(text, true), Plainly(text);
    assert Collapse(text, false) == inner || Collapse(text, false) == [SPACE] + inner;
    if Collapse(text, false) == [SPACE] + inner { assert ([SPACE] + inner)[1..] == inner; }
    TrimOfSpaced(inner, words);
    assert TrimStart([SPACE] + inner) == TrimStart(inner);
  }

  lemma TrimOfSpaced(inner: Str, words: Str)
    requires inner == words || (inner == words + [SPACE] && words != []) || inner == words + []
    requires Tight(words)
    ensures TrimStart(inner) == inner && TrimEnd(inner) == words && Trim(inner) == words
  {
    if inner == words + [SPACE] { assert inner[..|inner| - 1] == words; }
  }

  lemma {:induction false} JoinedTight(words: seq<Str>)
    requires forall i :: 0 <= i < |words| ==> words[i] != [] && forall c :: c in words[i] ==> !IsSpace(c)
    ensures Tight(Joined(words, SPACE))
  {
    if words != [] {
      assert words[0][0] in words[0] && words[0][|words[0]| - 1] in words[0];
      if |words| > 1 {
        JoinedTight(words[1..]);
        JoinedFilled(words[1..], SPACE);
      }
    }
  }

  /**
   * What is left of a text: the words of its redaction when they fit, a prefix of them with an ellipsis
   * when they do not, and nothing when there are none.
   */
  lemma TruncateIs(value: Str, maxLength: nat, redact: Str -> Str)
    ensures
      var text, result := Plainly(redact(value)), Truncate(value, maxLength, redact);
      if value == [] || text == [] then result == None
      else if |text| <= maxLength then result == Some(text)
      else result.Some? && CutAt(result.value, text, if maxLength >= 3 then maxLength - 3 else 0)
  {
    var text := Plainly(redact(value));
    TrimOfCollapsed(redact(value));
    if |text| > maxLength {
      var n := if maxLength >= 3 then maxLength - 3 else 0;
      TrimEndDrops(text[..n]);
      TrimEndKeepsStart(text[..n]);
      var k := |TrimEnd(text[..n])|;
      assert TrimEnd(text[..n]) == text[..k];
      forall i | k <= i < n ensures IsSpace(text[i]) { assert text[..n][k..][i - k] == text[i]; }
    }
  }

  /** The distinct trimmed non-empty values, in order. */
  function Normalized(values: seq<Str>): seq<Str> {
    if values == [] then []
    else
      var before, last := Normalized(values[..|values| - 1]), Trim(values[|values| - 1]);
      if last == [] || last in before then before else before + [last]
  }

  function Take(items: seq<Str>, max: nat): seq<Str> { if |items| <= max then items else items[..max] }

  lemma {:induction false} NormalizedGrows(values: seq<Str>, i: nat)
    requires i <= |values|
    ensures Normalized(values[..i]) <= Normalized(values)
    decreases |values|
  {
    if i < |values| {
      var front := values[..|values| - 1];
      assert values[..i] == front[..i];
      NormalizedGrows(front, i);
    } else {
      assert values[..i] == values;
    }
  }

  /** These are the trimmed values that are not blank, each once. */
  lemma {:induction false} NormalizedIs(values: seq<Str>)
    ensures forall text ::
      text in Normalized(values) <==> text != [] && exists i :: 0 <= i < |values| && Trim(values[i]) == text
    ensures forall i, j :: 0 <= i < j < |Normalized(values)| ==> Normalized(values)[i] != Normalized(values)[j]
  {
    if values == [] {
    } else {
      var front, last := values[..|values| - 1], values[|values| - 1];
      NormalizedIs(front);
      assert forall i :: 0 <= i < |front| ==> front[i] == values[i];
      forall text ensures text in Normalized(values)
        <==> text != [] && exists i :: 0 <= i < |values| && Trim(values[i]) == text
      {
        if Trim(last) == text { assert Trim(values[|values| - 1]) == text; }
      }
    }
  }

  /** limitStrings stops as soon as it has enough, and has the first of all distinct values. */
  method LimitStrings(values: seq<Str>, max: nat) returns (output: seq<Str>)
    requires max > 0
    ensures output == Take(Normalized(values), max)
  {
    output := [];
    for i := 0 to |values|
      invariant output == Normalized(values[..i]) && |output| < max
    {
      assert values[..i + 1][..i] == values[..i];
      var normalized := Trim(values[i]);
      if normalized != [] && normalized !in output {
        output := output + [normalized];
        if |output| >= max {
          NormalizedGrows(values, i + 1);
          return;
        }
      }
    }
    assert values[..|values|] == values;
  }

  // ---------------------------------------------------------------------------
  // Trimming
  // ---------------------------------------------------------------------------

  predicate Exhausted(items: Option<seq<Str>>) { items.None? || items.value == [] }

  function ShortenArray(items: Option<seq<Str>>): Option<seq<Str>>
    requires !Exhausted(items)
  {
    if |items.value| == 1 then None else Some(items.value[..|items.value| - 1])
  }

  function ShortenText(text: Str, minLength: nat, redact: Str -> Str): (r: Option<Str>)
    requires minLength >= 3
    ensures r.Some? ==> |r.value| < |text|
  {
    if |text| <= minLength then None
    else Truncate(text, if |text| - 16 > minLength then |text| - 16 else minLength, redact)
  }

  predicate HasDisplayName(s: Summary) {
    s.actor.Some? && s.actor.value.displayName.Some? && s.actor.value.displayName.value != []
  }

  const TITLE_MIN: nat := 24
  const STATUS_MIN: nat := 16

  /** One round of the loop; None when there is nothing left to trim. */
  function TrimOnce(s: Summary, redact: Str -> Str): Option<Summary> {
    if !Exhausted(s.labels) then Some(s.(labels := ShortenArray(s.labels)))
    else if !Exhausted(s.fieldsChanged) then Some(s.(fieldsChanged := ShortenArray(s.fieldsChanged)))
    else if !Exhausted(s.tags) then Some(s.(tags := ShortenArray(s.tags)))
    else if HasDisplayName(s) then Some(s.(actor := Some(Actor(s.actor.value.id, None))))
    else if s.title.Some? then Some(s.(title := ShortenText(s.title.value, TITLE_MIN, redact)))
    else if s.status.Some? then Some(s.(status := ShortenText(s.status.value, STATUS_MIN, redact)))
    else if s.actor.Some? then Some(s.(actor := None))
    else None
  }

  /** Once only texts are left, the title loses 16 characters a round down to 24, then the status down to 16. */
  lemma TextsShorten(s: Summary, redact: Str -> Str)
    requires Exhausted(s.labels) && Exhausted(s.fieldsChanged) && Exhausted(s.tags) && !HasDisplayName(s)
    ensures s.title.Some? ==> TrimOnce(s, redact) == Some(s.(title :=
      if |s.title.value| <= 24 then None
      else Truncate(s.title.value, if |s.title.value| < 40 then 24 else |s.title.value| - 16, redact)))
    ensures s.title.None? && s.status.Some? ==> TrimOnce(s, redact) == Some(s.(status :=
      if |s.status.value| <= 16 then None
      else Truncate(s.status.value, if |s.status.value| < 32 then 16 else |s.status.value| - 16, redact)))
  {}

  function ArraySize(items: Option<seq<Str>>): nat { if items.None? then 0 else |items.value| }

  function TextSize(text: Option<Str>): nat { if text.None? then 0 else |text.value| + 1 }

  /** What every round lessens. */
  function Weight(s: Summary): nat {
    ArraySize(s.labels) + ArraySize(s.fieldsChanged) + ArraySize(s.tags) + (if HasDisplayName(s) then 1 else 0)
    + TextSize(s.title) + TextSize(s.status) + if s.actor.Some? then 1 else 0
  }

  lemma ShorterArray(items: Option<seq<Str>>)
    requires !Exhausted(items)
    ensures ArraySize(ShortenArray(items)) < ArraySize(items)
  {}

  lemma ShorterText(text: Str, minLength: nat, redact: Str -> Str)
    requires minLength >= 3
    ensures TextSize(ShortenText(text, minLength, redact)) < TextSize(Some(text))
  {}

  /** Every round strictly lessens the weight. */
  lemma TrimLessens(s: Summary, redact: Str -> Str)
    requires TrimOnce(s, redact).Some?
    ensures Weight(TrimOnce(s, redact).value) < Weight(s)
  {
    if !Exhausted(s.labels) {
      ShorterArray(s.labels);
    } else if !Exhausted(s.fieldsChanged) {
      ShorterArray(s.fieldsChanged);
    } else if !Exhausted(s.tags) {
      ShorterArray(s.tags);
    } else if HasDisplayName(s) {
    } else if s.title.Some? {
      ShorterText(s.title.value, TITLE_MIN, redact);
    } else if s.status.Some? {
      ShorterText(s.status.value, STATUS_MIN, redact);
    }
  }

  function Finalized(s: Summary, redact: Str -> Str, length: Measure): Summary
    decreases Weight(s)
  {
    if length(s) < MAX_JSON_LENGTH then s
    else
      match TrimOnce(s, redact)
      case None => s
      case Some(next) =>
        TrimLessens(s, redact);
        Finalized(next, redact, length)
  }

  /** The summary being trimmed in place. */
  class Trimmer {
    var next: Summary
    const redact: Str -> Str

    constructor (summary: Summary, redact: Str -> Str)
      ensures next == summary && this.redact == redact
    {
      this.next, this.redact := summary, redact;
    }

    method TrimLabels() returns (trimmed: bool)
      modifies this
      ensures trimmed == !Exhausted(old(next).labels)
      ensures next == if trimmed then old(next).(labels := ShortenArray(old(next).labels)) else old(next)
    {
      var rest: Option<seq<Str>>;
      trimmed, rest := TrimArray(next.labels);
      if trimmed { next := next.(labels := rest); }
    }

    method TrimFieldsChanged() returns (trimmed: bool)
      modifies this
      ensures trimmed == !Exhausted(old(next).fieldsChanged)
      ensures next == if trimmed then old(next).(fieldsChanged := ShortenArray(old(next).fieldsChanged)) else old(next)
    {
      var rest: Option<seq<Str>>;
      trimmed, rest := TrimArray(next.fieldsChanged);
      if trimmed { next := next.(fieldsChanged := rest); }
    }

    method TrimTags() returns (trimmed: bool)
      modifies this
      ensures trimmed == !Exhausted(old(next).tags)
      ensures next == if trimmed then old(next).(tags := ShortenArray(old(next).tags)) else old(next)
    {
      var rest: Option<seq<Str>>;
      trimmed, rest := TrimArray(next.tags);
      if trimmed { next := next.(tags := rest); }
    }

    static method TrimArray(current: Option<seq<Str>>) returns (trimmed: bool, rest: Option<seq<Str>>)
      ensures trimmed == !Exhausted(current) && rest == if trimmed then ShortenArray(current) else current
    {
      if current.None? || |current.value| == 0 { return false, current; }
      if |current.value| == 1 { return true, None; }
      return true, Some(current.value[..|current.value| - 1]);
    }

    method TrimText(current: Option<Str>, minLength: nat) returns (trimmed: bool, rest: Option<Str>)
      requires minLength >= 3
      ensures trimmed == current.Some?
      ensures rest == if trimmed then ShortenText(current.value, minLength, redact) else None
    {
      if current.None? { return false, None; }
      if |current.value| <= minLength { return true, None; }
      var nextLength := if |current.value| - 16 > minLength then |current.value| - 16 else minLength;
      return true, Truncate(current.value, nextLength, redact);
    }

    /** One round; false when there was nothing left to trim. */
    method Round() returns (trimmed: bool)
      modifies this
      ensures match TrimOnce(old(next), redact)
        case None => !trimmed && next == old(next)
        case Some(shorter) => trimmed && next == shorter
    {
      trimmed := TrimLabels();
      if trimmed { return; }
      trimmed := TrimFieldsChanged();
      if trimmed { return; }
      trimmed := TrimTags();
      if trimmed { return; }
      if HasDisplayName(next) {
        next := next.(actor := Some(Actor(next.actor.value.id, None)));
        return true;
      }
      var rest: Option<Str>;
      trimmed, rest := TrimText(next.title, TITLE_MIN);
      if trimmed {
        next := next.(title := rest);
        return;
      }
      trimmed, rest := TrimText(next.status, STATUS_MIN);
      if trimmed {
        next := next.(status := rest);
        return;
      }
      if next.actor.Some? {
        next := next.(actor := None);
        return true;
      }
    }

    method FinalizeSummary() returns (summary: Summary)
      modifies this
      ensures summary == next == Finalized(old(next), redact, JsonLength())
    {
      var length := JsonLength();
      var trimmed := true;
      while trimmed && length(next) >= MAX_JSON_LENGTH
        invariant Finalized(next, redact, length) == Finalized(old(next), redact, length)
        invariant !trimmed ==> Finalized(next, redact, length) == next
        decreases Weight(next), trimmed
      {
        ghost var before := next;
        trimmed := Round();
        if trimmed { TrimLessens(before, redact); }
      }
      return next;
    }
  }

  // ---------------------------------------------------------------------------
  // What is left
  // ---------------------------------------------------------------------------

  /** The summary after some rounds, if there are so many. */
  function After(s: Summary, redact: Str -> Str, rounds: nat): Option<Summary>
    decreases rounds
  {
    if rounds == 0 then Some(s)
    else
      var next :- TrimOnce(s, redact);
      After(next, redact, rounds - 1)
  }

  /** The result is the first summary in the sequence of rounds that fits, or the last one there is. */
  lemma {:induction false} FinalizedIsFirstFit(s: Summary, redact: Str -> Str, length: Measure) returns (rounds: nat)
    ensures After(s, redact, rounds) == Some(Finalized(s, redact, length))
    ensures forall m :: 0 <= m < rounds ==>
      After(s, redact, m).Some? && length(After(s, redact, m).value) >= MAX_JSON_LENGTH
    ensures length(Finalized(s, redact, length)) < MAX_JSON_LENGTH
      || TrimOnce(Finalized(s, redact, length), redact).None?
    decreases Weight(s)
  {
    rounds := 0;
    if length(s) >= MAX_JSON_LENGTH && TrimOnce(s, redact).Some? {
      TrimLessens(s, redact);
      var more := FinalizedIsFirstFit(TrimOnce(s, redact).value, redact, length);
      rounds := more + 1;
      forall m | 0 <= m < rounds
        ensures After(s, redact, m).Some? && length(After(s, redact, m).value) >= MAX_JSON_LENGTH
      {
        if m > 0 { assert After(s, redact, m) == After(TrimOnce(s, redact).value, redact, m - 1); }
      }
    }
  }

  lemma AlnumUnit(c: CodeUnit)
    requires IsAlnum(c)
    ensures EscapeUnit(c, false) == [c] && !UriCodec.IsLead(c) && !UriCodec.IsTrail(c)
  {}

  lemma {:induction false} PlainEscaped(s: Str)
    requires forall i :: 0 <= i < |s| ==> IsAlnum(s[i])
    ensures |Escaped(s)| == |s|
  {
    if s == [] {
    } else {
      AlnumUnit(s[0]);
      PlainEscaped(s[1..]);
    }
  }

  /** At most one member, and a short one. */
  ghost predicate ShortPart(part: seq<Str>) { |part| <= 1 && forall x :: x in part ==> |x| <= 18 }

  /** An absent or empty list is at most one short member. */
  lemma EmptyMember(key: Str, items: Option<seq<Str>>)
    requires |key| <= 13 && (forall i :: 0 <= i < |key| ==> IsAlnum(key[i])) && Exhausted(items)
    ensures ShortPart(ArrayMember(key, items))
  {
    PlainEscaped(key);
    if items.Some? { assert ArrayText(items.value) == [91, 93]; }
  }

  lemma {:induction false} ShortParts(parts: seq<Str>)
    requires forall i :: 0 <= i < |parts| ==> |parts[i]| <= 18
    ensures |CommaJoined(parts)| <= 19 * |parts|
    decreases |parts|
  {
    if |parts| > 1 { ShortParts(parts[1..]); }
  }

  lemma ThreeShort(a: seq<Str>, b: seq<Str>, c: seq<Str>)
    requires ShortPart(a) && ShortPart(b) && ShortPart(c)
    ensures |ObjectText(a + b + c)| < MAX_JSON_LENGTH
  {
    var parts: seq<Str> := a + b + c;
    forall i | 0 <= i < |parts| ensures |parts[i]| <= 18 { assert parts[i] in a || parts[i] in b || parts[i] in c; }
    ShortParts(parts);
  }

  lemma KeysShort()
    ensures forall i :: 0 <= i < |U("labels")| ==> IsAlnum(U("labels")[i])
    ensures forall i :: 0 <= i < |U("fieldsChanged")| ==> IsAlnum(U("fieldsChanged")[i])
    ensures forall i :: 0 <= i < |U("tags")| ==> IsAlnum(U("tags")[i])
  {}

  lemma MembersLeft(s: Summary, a: seq<Str>, b: seq<Str>, c: seq<Str>)
    requires s.title.None? && s.status.None? && s.actor.None?
    requires a == ArrayMember(U("labels"), s.labels) && b == ArrayMember(U("fieldsChanged"), s.fieldsChanged)
    requires c == ArrayMember(U("tags"), s.tags)
    ensures Members(s) == a + b + c
  {
    assert TextMember(U("title"), s.title) == [] && TextMember(U("status"), s.status) == []
      && ActorMember(s.actor) == [];
    assert [] + [] + a + [] + b + c == a + b + c;
  }

  lemma ListsShort(s: Summary) returns (a: seq<Str>, b: seq<Str>, c: seq<Str>)
    requires Exhausted(s.labels) && Exhausted(s.fieldsChanged) && Exhausted(s.tags)
    ensures a == ArrayMember(U("labels"), s.labels) && b == ArrayMember(U("fieldsChanged"), s.fieldsChanged)
    ensures c == ArrayMember(U("tags"), s.tags) && ShortPart(a) && ShortPart(b) && ShortPart(c)
  {
    KeysShort();
    EmptyMember(U("labels"), s.labels);
    EmptyMember(U("fieldsChanged"), s.fieldsChanged);
    EmptyMember(U("tags"), s.tags);
    a, b, c := ArrayMember(U("labels"), s.labels), ArrayMember(U("fieldsChanged"), s.fieldsChanged),
      ArrayMember(U("tags"), s.tags);
  }

  /** A summary with nothing left to trim has at most three empty lists: it is short. */
  lemma NothingLeftIsShort(s: Summary, redact: Str -> Str)
    requires TrimOnce(s, redact).None?
    ensures |Json(s)| < MAX_JSON_LENGTH
  {
    var a, b, c := ListsShort(s);
    MembersLeft(s, a, b, c);
    ThreeShort(a, b, c);
  }

  /** Whatever the summary and whatever redaction does to its texts, the result is shorter than the budget. */
  lemma FinalizedFits(s: Summary, redact: Str -> Str)
    ensures |Json(Finalized(s, redact, JsonLength()))| < 1024
  {
    var rounds := FinalizedIsFirstFit(s, redact, JsonLength());
    var r := Finalized(s, redact, JsonLength());
    if TrimOnce(r, redact).None? { NothingLeftIsShort(r, redact); }
    assert JsonLength()(r) == |Json(r)|;
  }

  /** A list that trimming left: as it was, or a beginning of the old one that is not empty, or none. */
  predicate Shortened(now: Option<seq<Str>>, was: Option<seq<Str>>) {
    now == was || (was.Some? && was.value != [] && (now.None? || (now.value != [] && now.value <= was.value)))
  }

  /** Each part is touched only once every part before it is exhausted. */
  predicate InOrder(now: Summary, was: Summary) {
    && Shortened(now.labels, was.labels) && Shortened(now.fieldsChanged, was.fieldsChanged)
      && Shortened(now.tags, was.tags)
    && (now.fieldsChanged != was.fieldsChanged ==> Exhausted(now.labels))
    && (now.tags != was.tags ==> Exhausted(now.labels) && Exhausted(now.fieldsChanged))
    && (now.actor != was.actor ==> Exhausted(now.labels) && Exhausted(now.fieldsChanged) && Exhausted(now.tags))
    && (now.title != was.title ==>
        Exhausted(now.tags) && Exhausted(now.labels) && Exhausted(now.fieldsChanged) && !HasDisplayName(now))
    && (now.status != was.status ==>
         now.title.None? && Exhausted(now.tags) && Exhausted(now.labels) && Exhausted(now.fieldsChanged)
           && !HasDisplayName(now))
    && (now.actor.None? && was.actor.Some? ==> now.title.None? && now.status.None?)
    && (now.actor.Some? ==> was.actor.Some? && now.actor.value.id == was.actor.value.id)
    && (now.actor.Some? && now.actor != was.actor ==>
         now.actor.value.displayName.None? && was.actor.value.displayName.Some?
           && was.actor.value.displayName.value != [])
  }

  lemma ListStep(now: Summary, was: Summary)
    requires InOrder(now, was)
    ensures !Exhausted(now.labels) ==> InOrder(now.(labels := ShortenArray(now.labels)), was)
    ensures Exhausted(now.labels) && !Exhausted(now.fieldsChanged) ==>
      InOrder(now.(fieldsChanged := ShortenArray(now.fieldsChanged)), was)
    ensures Exhausted(now.labels) && Exhausted(now.fieldsChanged) && !Exhausted(now.tags) ==>
      InOrder(now.(tags := ShortenArray(now.tags)), was)
  {}

  lemma TextStep(now: Summary, was: Summary, text: Option<Str>)
    requires InOrder(now, was) && Exhausted(now.labels) && Exhausted(now.fieldsChanged) && Exhausted(now.tags)
    ensures HasDisplayName(now) ==> InOrder(now.(actor := Some(Actor(now.actor.value.id, None))), was)
    ensures !HasDisplayName(now) && now.title.Some? ==> InOrder(now.(title := text), was)
    ensures !HasDisplayName(now) && now.title.None? && now.status.Some? ==> InOrder(now.(status := text), was)
    ensures !HasDisplayName(now) && now.title.None? && now.status.None? ==> InOrder(now.(actor := None), was)
  {}

  lemma InOrderStep(now: Summary, was: Summary, redact: Str -> Str)
    requires InOrder(now, was) && TrimOnce(now, redact).Some?
    ensures InOrder(TrimOnce(now, redact).value, was)
  {
    var next := TrimOnce(now, redact).value;
    ListStep(now, was);
    if Exhausted(now.labels) && Exhausted(now.fieldsChanged) && Exhausted(now.tags) {
      TextStep(now, was, next.title);
      TextStep(now, was, next.status);
    }
  }

  lemma {:induction false} InOrderFrom(now: Summary, was: Summary, redact: Str -> Str, length: Measure)
    requires InOrder(now, was)
    ensures InOrder(Finalized(now, redact, length), was)
    decreases Weight(now)
  {
    if length(now) >= MAX_JSON_LENGTH && TrimOnce(now, redact).Some? {
      TrimLessens(now, redact);
      InOrderStep(now, was, redact);
      InOrderFrom(TrimOnce(now, redact).value, was, redact, length);
    }
  }

  /** Trimming goes strictly through labels, fieldsChanged, tags, display name, title, status and actor. */
  lemma FinalizedInOrder(s: Summary, redact: Str -> Str)
    ensures InOrder(Finalized(s, redact, JsonLength()), s)
  {
    InOrderFrom(s, s, redact, JsonLength());
  }
}
