/**
 * Thread pagination: pages cut at an opaque cursor, and the sequence of pages a reader gets by
 * following the cursors (packages/asana/src/thread.ts:40-57, 90-111).
 */
module ThreadPages {
  import opened Wrappers
  import opened JsStrings
  import opened Decimals
  import Base64Url

  const DEFAULT_LIMIT: nat := 25
  const MAX_LIMIT: nat := 100

  /** `Math.trunc` */
  function Trunc(x: real): int { if x >= 0.0 then x.Floor else -(-x).Floor }

  /** normalizeThreadLimit; None stands for a limit that is not a finite number. */
  function Limit(limit: Option<real>): (n: nat)
    ensures 1 <= n <= MAX_LIMIT
  {
    match limit
    case None => DEFAULT_LIMIT
    case Some(x) => if Trunc(x) < 1 then DEFAULT_LIMIT else if Trunc(x) < MAX_LIMIT then Trunc(x) else MAX_LIMIT
  }

  /** A requested limit is cut to a whole number and used as it is from 1 to 100; 100 stands in above, 25 below. */
  lemma LimitIs(limit: real, n: int)
    requires n as real <= limit < (n + 1) as real
    ensures Limit(Some(limit)) == if n < 1 then 25 else if n <= 100 then n else 100
    ensures Limit(None) == 25
  {
    assert limit >= 0.0 ==> Trunc(limit) == n;
  }

  /** `JSON.stringify({ offset })` */
  function OffsetText(offset: nat): Str { U("{\"offset\":") + Decimal(offset) + U("}") }

  /**
   * What the host makes of texts that are not of that form: the text that TextDecoder reads from
   * bytes, and the offset that JSON.parse and readNumericCursorValue find in it, if any.
   */
  datatype Host = Host(decodeUtf8: seq<Base64Url.Byte> -> Str, offsetIn: Str -> Option<nat>)

  predicate Ascii(s: Str) { forall i :: 0 <= i < |s| ==> s[i] < 128 }

  /** TextEncoder and TextDecoder leave ASCII alone. */
  function AsciiBytes(s: Str): (r: Base64Url.Bytes)
    requires Ascii(s)
    ensures |r| == |s| && forall i :: 0 <= i < |s| ==> r[i] == s[i]
  {
    seq(|s|, i requires 0 <= i < |s| => s[i])
  }

  function DecodeText(bytes: Base64Url.Bytes, host: Host): Str {
    if forall i :: 0 <= i < |bytes| ==> bytes[i] < 128 then seq(|bytes|, i requires 0 <= i < |bytes| => bytes[i])
    else host.decodeUtf8(bytes)
  }

  /** The offset of the printed form, when the text is one. */
  function PrintedOffset(text: Str): Option<nat> {
    if |text| < 12 || text[..10] != U("{\"offset\":") || text[|text| - 1] != 125 then None
    else
      var digits := text[10..|text| - 1];
      if forall i :: 0 <= i < |digits| ==> IsDigit(digits[i]) then
        if Decimal(Number(digits)) == digits then Some(Number(digits)) else None
      else None
  }

  function OffsetIn(text: Str, host: Host): Option<nat> {
    match PrintedOffset(text) case Some(n) => Some(n) case None => host.offsetIn(text)
  }

  lemma OffsetTextAscii(offset: nat)
    ensures Ascii(OffsetText(offset))
  {}

  /** encodeOpaqueCursor */
  function EncodeCursor(offset: nat): Str {
    OffsetTextAscii(offset);
    Base64Url.Encode(AsciiBytes(OffsetText(offset)))
  }

  /** The offset a request starts from: that of its cursor, or zero when it has none to read. */
  function OffsetOf(cursor: Option<Str>, host: Host): nat {
    match cursor
    case None => 0
    case Some(text) =>
      if Trim(text) == [] then 0
      else
        match Base64Url.Decode(Trim(text))
        case None => 0
        case Some(bytes) => match OffsetIn(DecodeText(bytes, host), host) case Some(n) => n case None => 0
  }

  /** A printed cursor reads back as its offset. */
  lemma CursorRoundTrip(offset: nat, host: Host)
    ensures OffsetOf(Some(EncodeCursor(offset)), host) == offset
  {
    var text := OffsetText(offset);
    OffsetTextAscii(offset);
    var bytes := AsciiBytes(text);
    Base64Url.DecodeEncode(bytes);
    Base64Url.EncodeAlphabet(bytes);
    TrimOfTight(EncodeCursor(offset));
    assert DecodeText(bytes, host) == text;
    PrintedForm(offset);
  }

  lemma PrintedForm(offset: nat)
    ensures PrintedOffset(OffsetText(offset)) == Some(offset)
  {
    var text := OffsetText(offset);
    assert text[..10] == U("{\"offset\":") && text[10..|text| - 1] == Decimal(offset) && text[|text| - 1] == 125;
    NumberOfDecimal(offset);
  }

  datatype Page<T> = Page(items: seq<T>, hasMore: bool, cursor: Option<Str>)

  function Clamp(n: nat, max: nat): nat { if n < max then n else max }

  /** How cursors are written and read. */
  datatype Codec = Codec(write: nat -> Str, read: Option<Str> -> nat)

  function CodecOf(host: Host): Codec { Codec(EncodeCursor, cursor => OffsetOf(cursor, host)) }

  ghost predicate Faithful(codec: Codec) {
    codec.read(None) == 0 && forall n: nat :: codec.read(Some(codec.write(n))) == n
  }

  lemma CursorsAreFaithful(host: Host)
    ensures Faithful(CodecOf(host))
  {
    forall n: nat ensures CodecOf(host).read(Some(CodecOf(host).write(n))) == n { CursorRoundTrip(n, host); }
  }

  /** buildArrayThreadExpansion */
  function Expand<T>(items: seq<T>, cursor: Option<Str>, limit: Option<real>, codec: Codec): Page<T> {
    var offset := codec.read(cursor);
    var next := offset + Limit(limit);
    Page(items[Clamp(offset, |items|)..Clamp(next, |items|)], next < |items|,
         if next < |items| then Some(codec.write(next)) else None)
  }

  /** The pages a reader gets who follows the cursors, asking for its own limit each time. */
  function Follow<T>(items: seq<T>, cursor: Option<Str>, limits: nat -> Option<real>, k: nat, codec: Codec)
    : seq<Page<T>>
    requires Faithful(codec)
    decreases |items| - codec.read(cursor)
  {
    var page := Expand(items, cursor, limits(k), codec);
    if page.cursor.None? then [page] else [page] + Follow(items, page.cursor, limits, k + 1, codec)
  }

  function Items<T>(pages: seq<Page<T>>): seq<T> {
    if pages == [] then [] else pages[0].items + Items(pages[1..])
  }

  /**
   * Pages that hold exactly the given items, at most one page an item, all but the last with more to come
   * and as full as was asked for.
   */
  ghost predicate Cover<T>(pages: seq<Page<T>>, items: seq<T>, limits: nat -> Option<real>, k: nat) {
    && Items(pages) == items
    && 1 <= |pages| <= (if items == [] then 1 else |items|)
    && forall i: nat :: i < |pages| ==>
         && pages[i].hasMore == (i < |pages| - 1)
         && if pages[i].hasMore then |pages[i].items| == Limit(limits(k + i))
            else |pages[i].items| <= Limit(limits(k + i))
  }

  lemma CoverOne<T>(page: Page<T>, items: seq<T>, limits: nat -> Option<real>, k: nat)
    requires page.items == items && !page.hasMore && |items| <= Limit(limits(k))
    ensures Cover([page], items, limits, k)
  {
    assert [page][1..] == [] && page.items + [] == page.items;
  }

  lemma CoverMore<T>(page: Page<T>, rest: seq<Page<T>>, items: seq<T>, limits: nat -> Option<real>, k: nat)
    requires page.hasMore && |page.items| == Limit(limits(k)) && page.items <= items && page.items != items
    requires Cover(rest, items[|page.items|..], limits, k + 1)
    ensures Cover([page] + rest, items, limits, k)
  {
    var pages := [page] + rest;
    assert pages[1..] == rest;
    assert items == page.items + items[|page.items|..];
    forall i: nat | i < |pages|
      ensures pages[i].hasMore == (i < |pages| - 1)
      ensures if pages[i].hasMore then |pages[i].items| == Limit(limits(k + i))
        else |pages[i].items| <= Limit(limits(k + i))
    {
      if i > 0 { assert pages[i] == rest[i - 1] && k + 1 + (i - 1) == k + i; }
    }
  }

  lemma {:induction false} FollowFrom<T>(items: seq<T>, cursor: Option<Str>, limits: nat -> Option<real>, k: nat,
                                         codec: Codec)
    requires Faithful(codec) && codec.read(cursor) <= |items|
    ensures Cover(Follow(items, cursor, limits, k, codec), items[codec.read(cursor)..], limits, k)
    decreases |items| - codec.read(cursor)
  {
    var page, offset := Expand(items, cursor, limits(k), codec), codec.read(cursor);
    var next := offset + Limit(limits(k));
    if page.cursor.None? {
      assert page.items == items[offset..];
      CoverOne(page, items[offset..], limits, k);
    } else {
      FollowFrom(items, page.cursor, limits, k + 1, codec);
      assert page.items == items[offset..][..next - offset] && items[offset..][next - offset..] == items[next..];
      CoverMore(page, Follow(items, page.cursor, limits, k + 1, codec), items[offset..], limits, k);
    }
  }

  /**
   * For any mix of requested limits, following the cursors ends, and the pages one after the
   * other are the whole list: each item once and in order.
   */
  lemma PagesAreTheList<T>(items: seq<T>, limits: nat -> Option<real>, host: Host)
    ensures Faithful(CodecOf(host)) && Cover(Follow(items, None, limits, 0, CodecOf(host)), items, limits, 0)
  {
    CursorsAreFaithful(host);
    FollowFrom(items, None, limits, 0, CodecOf(host));
    assert items[0..] == items;
  }
}
