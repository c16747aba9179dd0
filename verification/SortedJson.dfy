/**
 * sortJson: objects rebuilt with their keys in code-unit order
 * (packages/asana/src/asana-adapter.ts:1072-1088). A JavaScript object is its own properties in
 * enumeration order: array indices first, ascending, then other keys as they were added.
 */
module SortedJson {
  import opened Wrappers
  import opened JsStrings
  import opened Decimals

  datatype Json = Leaf(text: Str) | Arr(items: seq<Json>) | Obj(entries: seq<(Str, Json)>)

  type Entry = (Str, Json)

  const PROTO: Str := U("__proto__")

  // ---------------------------------------------------------------------------
  // Assigning properties
  // ---------------------------------------------------------------------------

  /** The array index a key is, if it is one. */
  function IndexKey(key: Str): Option<nat> {
    if |key| > 10 || exists i :: 0 <= i < |key| && !IsDigit(key[i]) then None
    else if key == Decimal(Number(key)) && Number(key) < 4294967295 then Some(Number(key))
    else None
  }

  /** The array indices are the decimals below 2^32 - 1. */
  lemma IndexKeyIff(key: Str, n: nat)
    ensures IndexKey(key) == Some(n) <==> n < 4294967295 && key == Decimal(n)
  {
    if key == Decimal(n) {
      NumberOfDecimal(n);
      if n < 4294967295 { DecimalShort(n); }
    }
  }

  lemma DecimalShort(n: nat)
    requires n < 4294967295
    ensures |Decimal(n)| <= 10 && forall i :: 0 <= i < |Decimal(n)| ==> IsDigit(Decimal(n)[i])
  {
    NumberOfDecimal(n);
    DecimalLength(n, 10);
  }

  lemma {:induction false} DecimalLength(n: nat, k: nat)
    requires k > 0 && n < Pow10(k)
    ensures |Decimal(n)| <= k
  {
    if n >= 10 { DecimalLength(n / 10, k - 1); }
  }

  /** A new key goes before this one. */
  predicate Before(key: Str, other: Str) {
    IndexKey(key).Some? && (IndexKey(other).None? || IndexKey(key).value < IndexKey(other).value)
  }

  /** `object[key] = value` for a key other than `__proto__`. */
  function Put(entries: seq<Entry>, key: Str, value: Json): seq<Entry> {
    if entries == [] then [(key, value)]
    else if entries[0].0 == key then [(key, value)] + entries[1..]
    else if Before(key, entries[0].0) then [(key, value)] + entries
    else [entries[0]] + Put(entries[1..], key, value)
  }

  /** The assignments of a loop, in order; assigning `__proto__` adds no property. */
  function PutAll(entries: seq<Entry>): seq<Entry> {
    if entries == [] then []
    else
      var before, last := PutAll(entries[..|entries| - 1]), entries[|entries| - 1];
      if last.0 == PROTO then before else Put(before, last.0, last.1)
  }

  // ---------------------------------------------------------------------------
  // Sorting
  // ---------------------------------------------------------------------------

  function Insert(entry: Entry, sorted: seq<Entry>): seq<Entry> {
    if sorted != [] && Less(sorted[0].0, entry.0) then [sorted[0]] + Insert(entry, sorted[1..]) else [entry] + sorted
  }

  /** The entries with their keys in code-unit order. */
  function SortKeys(entries: seq<Entry>): (r: seq<Entry>)
    ensures |r| == |entries|
  {
    if entries == [] then []
    else
      InsertLength(entries[0], SortKeys(entries[1..]));
      Insert(entries[0], SortKeys(entries[1..]))
  }

  lemma InsertLength(entry: Entry, sorted: seq<Entry>)
    ensures |Insert(entry, sorted)| == |sorted| + 1
  {}

  /** sortJson */
  function Sort(value: Json): Json {
    match value
    case Leaf(_) => value
    case Arr(items) => Arr(seq(|items|, i requires 0 <= i < |items| => Sort(items[i])))
    case Obj(entries) => Obj(PutAll(SortKeys(SortValues(value))))
  }

  /** The entries of an object with their values sorted. */
  function SortValues(value: Json): (r: seq<Entry>)
    requires value.Obj?
    ensures |r| == |value.entries|
    ensures forall i :: 0 <= i < |r| ==> r[i] == (value.entries[i].0, Sort(value.entries[i].1))
    decreases value, 0
  {
    seq(|value.entries|, i requires 0 <= i < |value.entries| => (value.entries[i].0, Sort(value.entries[i].1)))
  }

  /** The recursion and the loop as written: the keys are sorted first, then each value as it is assigned. */
  method SortJson(value: Json) returns (sorted: Json)
    ensures sorted == Sort(value)
    decreases value
  {
    match value
    case Leaf(_) => return value;
    case Arr(items) =>
      var list: seq<Json> := [];
      for i := 0 to |items|
        invariant |list| == i && forall k :: 0 <= k < i ==> list[k] == Sort(items[k])
      {
        var item := SortJson(items[i]);
        list := list + [item];
      }
      return Arr(list);
    case Obj(entries) =>
      var keys, mapped := SortKeys(entries), SortKeys(SortValues(value));
      SortKeysMembers(entries);
      var rebuilt: seq<Entry> := [];
      for i := 0 to |keys|
        invariant |mapped| == |keys| && rebuilt == PutAll(mapped[..i])
      {
        SortThenMap(entries, SortValues(value), i);
        assert keys[i] in entries;
        var one := SortJson(keys[i].1);
        assert mapped[..i + 1][..i] == mapped[..i];
        if keys[i].0 != PROTO { rebuilt := Put(rebuilt, keys[i].0, one); }
      }
      assert mapped[..|keys|] == mapped;
      return Obj(rebuilt);
  }

  // ---------------------------------------------------------------------------
  // Facts about sorting
  // ---------------------------------------------------------------------------

  predicate DistinctKeys(entries: seq<Entry>) { forall i, j :: 0 <= i < j < |entries| ==> entries[i].0 != entries[j].0 }

  ghost predicate Ascending(entries: seq<Entry>) {
    forall i, j :: 0 <= i < j < |entries| ==> Less(entries[i].0, entries[j].0)
  }

  lemma {:induction false} InsertMembers(entry: Entry, sorted: seq<Entry>)
    ensures forall e :: e in Insert(entry, sorted) <==> e == entry || e in sorted
  {
    if sorted != [] && Less(sorted[0].0, entry.0) {
      InsertMembers(entry, sorted[1..]);
      assert sorted == [sorted[0]] + sorted[1..];
    }
  }

  lemma {:induction false} SortKeysMembers(entries: seq<Entry>)
    ensures forall e :: e in SortKeys(entries) <==> e in entries
  {
    if entries == [] {
    } else {
      SortKeysMembers(entries[1..]);
      InsertMembers(entries[0], SortKeys(entries[1..]));
      assert entries == [entries[0]] + entries[1..];
    }
  }

  lemma {:induction false} InsertAscending(entry: Entry, sorted: seq<Entry>)
    requires Ascending(sorted) && forall e :: e in sorted ==> e.0 != entry.0
    ensures Ascending(Insert(entry, sorted))
  {
    if sorted == [] {
    } else {
      if Less(sorted[0].0, entry.0) {
        InsertAscending(entry, sorted[1..]);
        InsertMembers(entry, sorted[1..]);
        assert forall e :: e in sorted[1..] ==> Less(sorted[0].0, e.0);
        assert forall e :: e in Insert(entry, sorted[1..]) ==> Less(sorted[0].0, e.0);
      } else {
        LessTotal(sorted[0].0, entry.0);
        assert sorted[0] in sorted;
        forall e | e in sorted ensures Less(entry.0, e.0) {
          if e != sorted[0] { LessTransitive(entry.0, sorted[0].0, e.0); }
        }
      }
    }
  }

  lemma {:induction false} SortKeysAscending(entries: seq<Entry>)
    requires DistinctKeys(entries)
    ensures Ascending(SortKeys(entries))
  {
    if entries == [] {
    } else {
      SortKeysAscending(entries[1..]);
      SortKeysMembers(entries[1..]);
      assert forall e :: e in entries[1..] ==> e.0 != entries[0].0;
      InsertAscending(entries[0], SortKeys(entries[1..]));
    }
  }

  lemma AscendingHead(a: seq<Entry>, b: seq<Entry>)
    requires Ascending(a) && Ascending(b) && a != [] && b != [] && forall e :: e in a <==> e in b
    ensures a[0] == b[0]
  {
    assert a[0] in a && b[0] in b;
    assert a[0] in b && b[0] in a;
    if a[0] != b[0] {
      var i :| 0 <= i < |b| && b[i] == a[0];
      var j :| 0 <= j < |a| && a[j] == b[0];
      LessAsymmetric(a[0].0, b[0].0);
    }
  }

  lemma AscendingTail(a: seq<Entry>)
    requires Ascending(a) && a != []
    ensures forall e :: e in a[1..] <==> e in a && e != a[0]
  {
    assert a == [a[0]] + a[1..];
    LessIrreflexive(a[0].0);
    assert forall e :: e in a[1..] ==> Less(a[0].0, e.0);
  }

  lemma FirstMember(entries: seq<Entry>)
    ensures entries != [] ==> exists e :: e in entries
  {
    if entries != [] {
      assert entries[0] in entries;
    }
  }

  /** An ascending list is determined by its members. */
  lemma {:induction false} AscendingUnique(a: seq<Entry>, b: seq<Entry>)
    requires Ascending(a) && Ascending(b) && forall e :: e in a <==> e in b
    ensures a == b
  {
    if a == [] {
      FirstMember(b);
    } else {
      assert a[0] in a;
      assert b != [];
      AscendingHead(a, b);
      AscendingTail(a);
      AscendingTail(b);
      AscendingUnique(a[1..], b[1..]);
    }
  }

  /** Sorting by key before or after the values are sorted is the same. */
  lemma {:induction false} InsertMapped(entry: Entry, sorted: seq<Entry>, entry': Entry, sorted': seq<Entry>)
    requires entry'.0 == entry.0 && |sorted'| == |sorted|
    requires entry'.1 == Sort(entry.1)
    requires forall i :: 0 <= i < |sorted| ==> sorted'[i] == (sorted[i].0, Sort(sorted[i].1))
    ensures |Insert(entry', sorted')| == |Insert(entry, sorted)|
    ensures forall i :: 0 <= i < |Insert(entry, sorted)| ==>
      Insert(entry', sorted')[i] == (Insert(entry, sorted)[i].0, Sort(Insert(entry, sorted)[i].1))
  {
    if sorted != [] && Less(sorted[0].0, entry.0) { InsertMapped(entry, sorted[1..], entry', sorted'[1..]); }
  }

  lemma {:induction false} SortMapped(entries: seq<Entry>, mapped: seq<Entry>)
    requires |mapped| == |entries| && forall i :: 0 <= i < |entries| ==> mapped[i] == (entries[i].0, Sort(entries[i].1))
    ensures forall i :: 0 <= i < |entries| ==>
      SortKeys(mapped)[i] == (SortKeys(entries)[i].0, Sort(SortKeys(entries)[i].1))
  {
    if entries == [] {
    } else {
      SortMapped(entries[1..], mapped[1..]);
      InsertMapped(entries[0], SortKeys(entries[1..]), mapped[0], SortKeys(mapped[1..]));
    }
  }

  lemma SortThenMap(entries: seq<Entry>, mapped: seq<Entry>, i: nat)
    requires i < |entries| && |mapped| == |entries|
    requires forall k :: 0 <= k < |entries| ==> mapped[k] == (entries[k].0, Sort(entries[k].1))
    ensures SortKeys(mapped)[i] == (SortKeys(entries)[i].0, Sort(SortKeys(entries)[i].1))
  {
    SortMapped(entries, mapped);
  }

  predicate HasKey(entries: seq<Entry>, key: Str) { exists i :: 0 <= i < |entries| && entries[i].0 == key }

  /** The keys after the first are distinct and differ from it. */
  lemma TailApart(entries: seq<Entry>)
    requires entries != [] && DistinctKeys(entries)
    ensures DistinctKeys(entries[1..]) && forall e :: e in entries[1..] ==> e.0 != entries[0].0
  {
    forall i | 0 <= i < |entries[1..]| ensures entries[1..][i].0 != entries[0].0 {
      assert entries[1..][i] == entries[i + 1];
    }
  }

  lemma NoSuchKey(entries: seq<Entry>, key: Str)
    requires !HasKey(entries, key)
    ensures forall e :: e in entries ==> e.0 != key
    ensures entries != [] ==> entries[0].0 != key && !HasKey(entries[1..], key)
  {
    forall e | e in entries ensures e.0 != key { var i :| 0 <= i < |entries| && entries[i] == e; }
    if entries != [] {
      assert entries[0] in entries;
      forall i | 0 <= i < |entries[1..]| ensures entries[1..][i].0 != key { assert entries[1..][i] in entries; }
    }
  }

  lemma ConsApart(first: Entry, rest: seq<Entry>)
    requires DistinctKeys(rest) && forall e :: e in rest ==> e.0 != first.0
    ensures DistinctKeys([first] + rest)
  {
    forall i | 0 <= i < |rest| ensures rest[i].0 != first.0 { assert rest[i] in rest; }
  }

  lemma {:induction false} PutMembers(entries: seq<Entry>, key: Str, value: Json)
    requires DistinctKeys(entries) && !HasKey(entries, key)
    ensures forall e :: e in Put(entries, key, value) <==> e == (key, value) || e in entries
    ensures DistinctKeys(Put(entries, key, value))
  {
    NoSuchKey(entries, key);
    if entries == [] {
    } else if Before(key, entries[0].0) {
      ConsApart((key, value), entries);
    } else {
      assert entries == [entries[0]] + entries[1..];
      TailApart(entries);
      PutMembers(entries[1..], key, value);
      ConsApart(entries[0], Put(entries[1..], key, value));
    }
  }

  /** The properties of an object rebuilt by assignment: all but `__proto__`. */
  lemma {:induction false} PutAllMembers(entries: seq<Entry>)
    requires DistinctKeys(entries)
    ensures forall e :: e in PutAll(entries) <==> e in entries && e.0 != PROTO
    ensures DistinctKeys(PutAll(entries))
  {
    if entries == [] {
    } else {
      var front, last := entries[..|entries| - 1], entries[|entries| - 1];
      PutAllMembers(front);
      assert entries == front + [last];
      if last.0 != PROTO {
        forall i | 0 <= i < |PutAll(front)| ensures PutAll(front)[i].0 != last.0 { assert PutAll(front)[i] in front; }
        PutMembers(PutAll(front), last.0, last.1);
      }
    }
  }

  // ---------------------------------------------------------------------------
  // The order of keys
  // ---------------------------------------------------------------------------

  /** Array indices come first, by number, and then the other keys, by code units. */
  predicate KeyBefore(a: Str, b: Str) {
    if IndexKey(a).Some? then IndexKey(b).None? || IndexKey(a).value < IndexKey(b).value
    else IndexKey(b).None? && Less(a, b)
  }

  predicate InKeyOrder(entries: seq<Entry>) {
    forall i, j :: 0 <= i < j < |entries| ==> KeyBefore(entries[i].0, entries[j].0)
  }

  lemma OtherKey(key: Str, other: Str)
    requires key != other && (IndexKey(key).None? && IndexKey(other).None? ==> Less(other, key))
    ensures if Before(key, other) then KeyBefore(key, other) else KeyBefore(other, key)
  {}

  lemma BeforeAll(key: Str, first: Str, later: Str)
    requires Before(key, first) && KeyBefore(first, later)
    ensures KeyBefore(key, later)
  {}

  lemma {:induction false} PutInOrder(entries: seq<Entry>, key: Str, value: Json)
    requires InKeyOrder(entries) && forall e :: e in entries ==> e.0 != key
    requires IndexKey(key).None? ==> forall e :: e in entries && IndexKey(e.0).None? ==> Less(e.0, key)
    ensures InKeyOrder(Put(entries, key, value))
    ensures forall e :: e in Put(entries, key, value) ==> e == (key, value) || e in entries
  {
    if entries == [] {
    } else {
      var first, rest := entries[0], entries[1..];
      assert first in entries && forall e :: e in rest ==> e in entries;
      OtherKey(key, first.0);
      if Before(key, first.0) {
        forall e | e in entries ensures KeyBefore(key, e.0) {
          var i :| 0 <= i < |entries| && entries[i] == e;
          if i > 0 { BeforeAll(key, first.0, e.0); }
        }
        ConsInOrder((key, value), entries);
      } else {
        PutInOrder(rest, key, value);
        forall e | e in rest ensures KeyBefore(first.0, e.0) { var i :| 0 <= i < |rest| && rest[i] == e; }
        ConsInOrder(first, Put(rest, key, value));
      }
    }
  }

  lemma ConsInOrder(first: Entry, rest: seq<Entry>)
    requires InKeyOrder(rest) && forall e :: e in rest ==> KeyBefore(first.0, e.0)
    ensures InKeyOrder([first] + rest)
  {
    forall j | 0 <= j < |rest| ensures KeyBefore(first.0, rest[j].0) { assert rest[j] in rest; }
  }

  lemma {:induction false} PutAllInOrder(entries: seq<Entry>)
    requires Ascending(entries) && DistinctKeys(entries)
    ensures InKeyOrder(PutAll(entries))
  {
    if entries == [] {
    } else {
      var front, last := entries[..|entries| - 1], entries[|entries| - 1];
      assert entries == front + [last];
      PutAllInOrder(front);
      PutAllMembers(front);
      if last.0 != PROTO {
        forall e | e in PutAll(front) ensures e.0 != last.0 && Less(e.0, last.0) {
          var i :| 0 <= i < |front| && front[i] == e;
          assert entries[i] == e;
        }
        PutInOrder(PutAll(front), last.0, last.1);
      }
    }
  }

  /** Every object in the value lists its keys in order. */
  predicate KeysInOrder(value: Json) {
    match value
    case Leaf(_) => true
    case Arr(items) => forall i :: 0 <= i < |items| ==> KeysInOrder(items[i])
    case Obj(entries) => InKeyOrder(entries) && forall i :: 0 <= i < |entries| ==> KeysInOrder(entries[i].1)
  }

  // ---------------------------------------------------------------------------
  // Canonical forms
  // ---------------------------------------------------------------------------

  /** Every object has distinct keys. */
  predicate WellFormed(value: Json) {
    match value
    case Leaf(_) => true
    case Arr(items) => forall i :: 0 <= i < |items| ==> WellFormed(items[i])
    case Obj(entries) => DistinctKeys(entries) && forall i :: 0 <= i < |entries| ==> WellFormed(entries[i].1)
  }

  /** No object has a `__proto__` property of its own. */
  predicate ProtoFree(value: Json) {
    match value
    case Leaf(_) => true
    case Arr(items) => forall i :: 0 <= i < |items| ==> ProtoFree(items[i])
    case Obj(entries) => forall i :: 0 <= i < |entries| ==> entries[i].0 != PROTO && ProtoFree(entries[i].1)
  }

  /** Equal up to key order at every depth. */
  predicate Same(a: Json, b: Json)
    decreases a
  {
    match (a, b)
    case (Leaf(x), Leaf(y)) => x == y
    case (Arr(x), Arr(y)) => |x| == |y| && forall i :: 0 <= i < |x| ==> Same(x[i], y[i])
    case (Obj(x), Obj(y)) =>
      && (forall i :: 0 <= i < |x| ==> HasKey(y, x[i].0))
      && (forall j :: 0 <= j < |y| ==> HasKey(x, y[j].0))
      && (forall i, j :: 0 <= i < |x| && 0 <= j < |y| && x[i].0 == y[j].0 ==> Same(x[i].1, y[j].1))
    case _ => false
  }

  /** An object's sorted form is decided by its entries as a set. */
  lemma RebuildUnique(a: seq<Entry>, b: seq<Entry>)
    requires DistinctKeys(a) && DistinctKeys(b) && forall e :: e in a <==> e in b
    ensures PutAll(SortKeys(a)) == PutAll(SortKeys(b))
  {
    SortKeysMembers(a);
    SortKeysMembers(b);
    SortKeysAscending(a);
    SortKeysAscending(b);
    AscendingUnique(SortKeys(a), SortKeys(b));
  }

  lemma RebuildMembers(entries: seq<Entry>)
    requires DistinctKeys(entries)
    ensures forall e :: e in PutAll(SortKeys(entries)) <==> e in entries && e.0 != PROTO
    ensures DistinctKeys(PutAll(SortKeys(entries)))
  {
    SortKeysMembers(entries);
    SortKeysAscending(entries);
    AscendingDistinct(SortKeys(entries));
    PutAllMembers(SortKeys(entries));
  }

  lemma AscendingDistinct(entries: seq<Entry>)
    requires Ascending(entries)
    ensures DistinctKeys(entries)
  {
    forall i, j | 0 <= i < j < |entries| ensures entries[i].0 != entries[j].0 { LessIrreflexive(entries[i].0); }
  }

  /** Without `__proto__` the assignments of sorted keys keep the entries as a set, so equal results mean equal sets. */
  lemma SortedSame(a: Json, b: Json)
    requires a.Obj? && b.Obj? && WellFormed(a) && WellFormed(b)
    requires forall e :: e in SortValues(a) <==> e in SortValues(b)
    ensures Sort(a) == Sort(b)
  {
    RebuildUnique(SortValues(a), SortValues(b));
  }

  /** Values that are equal up to key order sort to the identical value. */
  lemma {:induction false} SameSortsAlike(a: Json, b: Json)
    requires WellFormed(a) && WellFormed(b) && Same(a, b)
    ensures Sort(a) == Sort(b)
    decreases a
  {
    match (a, b)
    case (Arr(x), Arr(y)) =>
      forall i | 0 <= i < |x| ensures Sort(x[i]) == Sort(y[i]) { SameSortsAlike(x[i], y[i]); }
    case (Obj(x), Obj(y)) =>
      forall i, j | 0 <= i < |x| && 0 <= j < |y| && x[i].0 == y[j].0 ensures Sort(x[i].1) == Sort(y[j].1) {
        SameSortsAlike(x[i].1, y[j].1);
      }
      forall e ensures e in SortValues(a) <==> e in SortValues(b) { SameEntries(a, b, e); }
      SortedSame(a, b);
    case _ =>
  }

  lemma SameEntries(a: Json, b: Json, e: Entry)
    requires a.Obj? && b.Obj?
    requires forall i :: 0 <= i < |a.entries| ==> HasKey(b.entries, a.entries[i].0)
    requires forall j :: 0 <= j < |b.entries| ==> HasKey(a.entries, b.entries[j].0)
    requires forall i, j :: 0 <= i < |a.entries| && 0 <= j < |b.entries| && a.entries[i].0 == b.entries[j].0 ==>
      Sort(a.entries[i].1) == Sort(b.entries[j].1)
    ensures e in SortValues(a) <==> e in SortValues(b)
  {
    if e in SortValues(a) {
      var i :| 0 <= i < |a.entries| && SortValues(a)[i] == e;
      var j :| 0 <= j < |b.entries| && b.entries[j].0 == a.entries[i].0;
      assert SortValues(b)[j] == e;
    }
    if e in SortValues(b) {
      var j :| 0 <= j < |b.entries| && SortValues(b)[j] == e;
      var i :| 0 <= i < |a.entries| && a.entries[i].0 == b.entries[j].0;
      assert SortValues(a)[i] == e;
    }
  }

  /** Sorting twice is sorting once, and the result has distinct keys and no `__proto__`. */
  lemma {:induction false} SortTwice(value: Json)
    requires WellFormed(value)
    ensures Sort(Sort(value)) == Sort(value) && WellFormed(Sort(value)) && ProtoFree(Sort(value))
    decreases value
  {
    match value
    case Leaf(_) =>
    case Arr(items) =>
      forall i | 0 <= i < |items|
        ensures Sort(Sort(items[i])) == Sort(items[i]) && WellFormed(Sort(items[i])) && ProtoFree(Sort(items[i]))
      {
        SortTwice(items[i]);
      }
    case Obj(entries) =>
      forall i | 0 <= i < |entries|
        ensures Sort(Sort(entries[i].1)) == Sort(entries[i].1) && WellFormed(Sort(entries[i].1))
          && ProtoFree(Sort(entries[i].1))
      {
        SortTwice(entries[i].1);
      }
      SortTwiceObject(value);
  }

  lemma SortTwiceObject(value: Json)
    requires value.Obj? && WellFormed(value)
    requires forall i :: 0 <= i < |value.entries| ==>
      var v := Sort(value.entries[i].1);
      Sort(v) == v && WellFormed(v) && ProtoFree(v)
    ensures Sort(Sort(value)) == Sort(value) && WellFormed(Sort(value)) && ProtoFree(Sort(value))
  {
    var mapped, once := SortValues(value), Sort(value);
    RebuildMembers(mapped);
    forall i | 0 <= i < |once.entries|
      ensures once.entries[i].0 != PROTO && Sort(once.entries[i].1) == once.entries[i].1
      ensures WellFormed(once.entries[i].1) && ProtoFree(once.entries[i].1)
    {
      assert once.entries[i] in mapped;
    }
    assert SortValues(once) == once.entries;
    SortedAgain(mapped);
  }

  /** Rebuilding what was rebuilt changes nothing. */
  lemma SortedAgain(entries: seq<Entry>)
    requires DistinctKeys(entries)
    ensures PutAll(SortKeys(PutAll(SortKeys(entries)))) == PutAll(SortKeys(entries))
  {
    var once, kept := PutAll(SortKeys(entries)), SortKeys(entries);
    RebuildMembers(entries);
    SortKeysMembers(entries);
    SortKeysAscending(entries);
    SortKeysMembers(once);
    SortKeysAscending(once);
    WithoutProto(kept, SortKeys(once));
  }

  /** The assignments skip `__proto__`: the list without it gives the same object. */
  lemma {:induction false} WithoutProto(a: seq<Entry>, b: seq<Entry>)
    requires Ascending(a) && Ascending(b) && forall e :: e in b <==> e in a && e.0 != PROTO
    ensures PutAll(a) == PutAll(b)
    decreases |a|
  {
    if a == [] {
      FirstMember(b);
    } else {
      var x, last := a[..|a| - 1], a[|a| - 1];
      assert a == x + [last];
      forall e | e in x ensures e != last { LessIrreflexive(last.0); }
      if last.0 == PROTO {
        WithoutProto(x, b);
      } else {
        assert last in b;
        AscendingLast(a, b);
        var y := b[..|b| - 1];
        assert b == y + [last];
        forall e | e in y ensures e != last { LessIrreflexive(last.0); }
        WithoutProto(x, y);
      }
    }
  }

  lemma AscendingLast(a: seq<Entry>, b: seq<Entry>)
    requires Ascending(a) && Ascending(b) && a != [] && a[|a| - 1] in b && forall e :: e in b ==> e in a
    ensures b != [] && b[|b| - 1] == a[|a| - 1]
  {
    var i :| 0 <= i < |b| && b[i] == a[|a| - 1];
    var end := b[|b| - 1];
    assert end in a;
    var j :| 0 <= j < |a| && a[j] == end;
    if i < |b| - 1 {
      LessIrreflexive(end.0);
      if j < |a| - 1 { LessAsymmetric(a[j].0, a[|a| - 1].0); }
    }
  }

  /** Values without `__proto__` properties that sort alike are equal up to key order. */
  lemma {:induction false} SortedAlikeIsSame(a: Json, b: Json)
    requires WellFormed(a) && WellFormed(b) && ProtoFree(a) && ProtoFree(b) && Sort(a) == Sort(b)
    ensures Same(a, b)
    decreases a
  {
    match (a, b)
    case (Arr(x), Arr(y)) =>
      forall i | 0 <= i < |x| ensures Same(x[i], y[i]) {
        assert Sort(a).items[i] == Sort(b).items[i];
        SortedAlikeIsSame(x[i], y[i]);
      }
    case (Obj(x), Obj(y)) =>
      SortedEntries(a, b);
      forall i, j | 0 <= i < |x| && 0 <= j < |y| && x[i].0 == y[j].0 ensures Same(x[i].1, y[j].1) {
        SameValue(a, b, i, j);
        SortedAlikeIsSame(x[i].1, y[j].1);
      }
    case _ =>
  }

  lemma SortedEntries(a: Json, b: Json)
    requires a.Obj? && b.Obj? && WellFormed(a) && WellFormed(b) && ProtoFree(a) && ProtoFree(b) && Sort(a) == Sort(b)
    ensures forall e :: e in SortValues(a) <==> e in SortValues(b)
    ensures forall i :: 0 <= i < |a.entries| ==> HasKey(b.entries, a.entries[i].0)
    ensures forall j :: 0 <= j < |b.entries| ==> HasKey(a.entries, b.entries[j].0)
  {
    RebuildMembers(SortValues(a));
    RebuildMembers(SortValues(b));
    forall e ensures e in SortValues(a) <==> e in SortValues(b) {
      assert e in SortValues(a) <==> e in Sort(a).entries;
      assert e in SortValues(b) <==> e in Sort(b).entries;
    }
    forall i | 0 <= i < |a.entries| ensures HasKey(b.entries, a.entries[i].0) {
      assert SortValues(a)[i] in SortValues(b);
      var j :| 0 <= j < |b.entries| && SortValues(b)[j] == SortValues(a)[i];
      assert b.entries[j].0 == a.entries[i].0;
    }
    forall j | 0 <= j < |b.entries| ensures HasKey(a.entries, b.entries[j].0) {
      assert SortValues(b)[j] in SortValues(a);
      var i :| 0 <= i < |a.entries| && SortValues(a)[i] == SortValues(b)[j];
      assert a.entries[i].0 == b.entries[j].0;
    }
  }

  lemma SameValue(a: Json, b: Json, i: nat, j: nat)
    requires a.Obj? && b.Obj? && WellFormed(b) && i < |a.entries| && j < |b.entries| && a.entries[i].0 == b.entries[j].0
    requires forall e :: e in SortValues(a) <==> e in SortValues(b)
    ensures Sort(a.entries[i].1) == Sort(b.entries[j].1)
  {
    assert SortValues(a)[i] in SortValues(b);
    var k :| 0 <= k < |b.entries| && SortValues(b)[k] == SortValues(a)[i];
    assert k == j;
  }

  /** On values without `__proto__` properties, equal results are equality up to key order. */
  lemma SortIsCanonicalWithoutProto(a: Json, b: Json)
    requires WellFormed(a) && WellFormed(b) && ProtoFree(a) && ProtoFree(b)
    ensures Sort(a) == Sort(b) <==> Same(a, b)
  {
    if Same(a, b) { SameSortsAlike(a, b); }
    if Sort(a) == Sort(b) { SortedAlikeIsSame(a, b); }
  }

  // ---------------------------------------------------------------------------
  // What sorting loses
  // ---------------------------------------------------------------------------

  function WithoutProtos(entries: seq<Entry>): seq<Entry> {
    if entries == [] then []
    else (if entries[0].0 == PROTO then [] else [entries[0]]) + WithoutProtos(entries[1..])
  }

  /** A value without its `__proto__` properties, at every depth. */
  function Stripped(value: Json): Json {
    match value
    case Leaf(_) => value
    case Arr(items) => Arr(seq(|items|, i requires 0 <= i < |items| => Stripped(items[i])))
    case Obj(entries) => Obj(WithoutProtos(StrippedValues(value)))
  }

  function StrippedValues(value: Json): (r: seq<Entry>)
    requires value.Obj?
    ensures |r| == |value.entries|
    ensures forall i :: 0 <= i < |r| ==> r[i] == (value.entries[i].0, Stripped(value.entries[i].1))
    decreases value, 0
  {
    seq(|value.entries|, i requires 0 <= i < |value.entries| => (value.entries[i].0, Stripped(value.entries[i].1)))
  }

  lemma {:induction false} WithoutProtosMembers(entries: seq<Entry>)
    ensures forall e :: e in WithoutProtos(entries) <==> e in entries && e.0 != PROTO
  {
    if entries == [] {
    } else {
      WithoutProtosMembers(entries[1..]);
      assert entries == [entries[0]] + entries[1..];
    }
  }

  lemma {:induction false} WithoutProtosDistinct(entries: seq<Entry>)
    requires DistinctKeys(entries)
    ensures DistinctKeys(WithoutProtos(entries))
  {
    if entries == [] {
    } else {
      WithoutProtosDistinct(entries[1..]);
      WithoutProtosMembers(entries[1..]);
      assert forall e :: e in entries[1..] ==> e.0 != entries[0].0;
    }
  }

  /** Stripping leaves a well-formed value without `__proto__` that sorts to the same value. */
  lemma {:induction false} StrippedSortsAlike(value: Json)
    requires WellFormed(value)
    ensures WellFormed(Stripped(value)) && ProtoFree(Stripped(value)) && Sort(Stripped(value)) == Sort(value)
    decreases value
  {
    match value
    case Leaf(_) =>
    case Arr(items) =>
      forall i | 0 <= i < |items|
        ensures WellFormed(Stripped(items[i])) && ProtoFree(Stripped(items[i]))
          && Sort(Stripped(items[i])) == Sort(items[i])
      {
        StrippedSortsAlike(items[i]);
      }
    case Obj(entries) =>
      forall i | 0 <= i < |entries|
        ensures WellFormed(Stripped(entries[i].1)) && ProtoFree(Stripped(entries[i].1))
        ensures Sort(Stripped(entries[i].1)) == Sort(entries[i].1)
      {
        StrippedSortsAlike(entries[i].1);
      }
      StrippedObject(value);
  }

  lemma StrippedObject(value: Json)
    requires value.Obj? && WellFormed(value)
    requires forall i :: 0 <= i < |value.entries| ==>
      var v := Stripped(value.entries[i].1);
      WellFormed(v) && ProtoFree(v) && Sort(v) == Sort(value.entries[i].1)
    ensures WellFormed(Stripped(value)) && ProtoFree(Stripped(value)) && Sort(Stripped(value)) == Sort(value)
  {
    var mapped, kept := StrippedValues(value), Stripped(value).entries;
    WithoutProtosMembers(mapped);
    WithoutProtosDistinct(mapped);
    forall i | 0 <= i < |kept| ensures kept[i].0 != PROTO && WellFormed(kept[i].1) && ProtoFree(kept[i].1) {
      assert kept[i] in mapped;
    }
    forall e ensures e in SortValues(Stripped(value)) <==> e in SortValues(value) && e.0 != PROTO {
      StrippedEntries(value, e);
    }
    SortKeysMembers(SortValues(value));
    SortKeysMembers(SortValues(Stripped(value)));
    SortKeysAscending(SortValues(value));
    SortKeysAscending(SortValues(Stripped(value)));
    WithoutProto(SortKeys(SortValues(value)), SortKeys(SortValues(Stripped(value))));
  }

  lemma StrippedEntries(value: Json, e: Entry)
    requires value.Obj?
    requires forall i :: 0 <= i < |value.entries| ==> Sort(Stripped(value.entries[i].1)) == Sort(value.entries[i].1)
    ensures e in SortValues(Stripped(value)) <==> e in SortValues(value) && e.0 != PROTO
  {
    var mapped, kept := StrippedValues(value), Stripped(value).entries;
    WithoutProtosMembers(mapped);
    if e in SortValues(Stripped(value)) {
      var i :| 0 <= i < |kept| && SortValues(Stripped(value))[i] == e;
      assert kept[i] in mapped;
      var j :| 0 <= j < |mapped| && mapped[j] == kept[i];
      assert SortValues(value)[j] == e;
    }
    if e in SortValues(value) && e.0 != PROTO {
      var j :| 0 <= j < |mapped| && SortValues(value)[j] == e;
      assert mapped[j] in kept;
      var i :| 0 <= i < |kept| && kept[i] == mapped[j];
      assert SortValues(Stripped(value))[i] == e;
    }
  }

  /**
   * Two values sort to the identical value exactly when, without their `__proto__` properties, they
   * are equal up to key order at every depth.
   */
  lemma SortIsCanonical(a: Json, b: Json)
    requires WellFormed(a) && WellFormed(b)
    ensures Sort(a) == Sort(b) <==> Same(Stripped(a), Stripped(b))
  {
    StrippedSortsAlike(a);
    StrippedSortsAlike(b);
    SortIsCanonicalWithoutProto(Stripped(a), Stripped(b));
  }

  lemma {:induction false} SameKeepsProtoFree(a: Json, b: Json)
    requires Same(a, b) && ProtoFree(a)
    ensures ProtoFree(b)
    decreases a
  {
    match (a, b)
    case (Arr(x), Arr(y)) =>
      forall i | 0 <= i < |y| ensures ProtoFree(y[i]) { SameKeepsProtoFree(x[i], y[i]); }
    case (Obj(x), Obj(y)) =>
      forall j | 0 <= j < |y| ensures y[j].0 != PROTO && ProtoFree(y[j].1) {
        assert HasKey(x, y[j].0);
        var i :| 0 <= i < |x| && x[i].0 == y[j].0;
        SameKeepsProtoFree(x[i].1, y[j].1);
      }
    case _ =>
  }

  /** Sorting gives back the value, up to key order, exactly when no object in it has a `__proto__` property. */
  lemma SortLosesOnlyProto(value: Json)
    requires WellFormed(value)
    ensures Same(Sort(value), value) <==> ProtoFree(value)
  {
    SortTwice(value);
    if ProtoFree(value) { SortIsCanonicalWithoutProto(Sort(value), value); }
    if Same(Sort(value), value) { SameKeepsProtoFree(Sort(value), value); }
  }

  /** An input that shows it: the property is lost. */
  lemma ProtoIsLost(value: Json)
    ensures Sort(Obj([(PROTO, value)])) == Sort(Obj([])) && !Same(Obj([(PROTO, value)]), Obj([]))
  {
    var rebuilt := Obj([(PROTO, value)]);
    var mapped := SortValues(rebuilt);
    assert mapped == [(PROTO, Sort(value))] && mapped[1..] == [] && [mapped[0]] + [] == mapped;
    assert SortKeys(mapped) == mapped && mapped[..0] == [];
    assert rebuilt.entries[0].0 == PROTO && !HasKey([], PROTO);
  }

  /** Sorting puts the keys of every object in order, at any depth. */
  lemma {:induction false} SortOrdersKeys(value: Json)
    requires WellFormed(value)
    ensures KeysInOrder(Sort(value))
  {
    match value
    case Leaf(_) =>
    case Arr(items) =>
      forall i | 0 <= i < |items| ensures KeysInOrder(Sort(items[i])) { SortOrdersKeys(items[i]); }
    case Obj(entries) =>
      var mapped := SortValues(value);
      forall i | 0 <= i < |entries| ensures KeysInOrder(Sort(entries[i].1)) { SortOrdersKeys(entries[i].1); }
      RebuiltInOrder(mapped);
      forall i | 0 <= i < |PutAll(SortKeys(mapped))| ensures KeysInOrder(PutAll(SortKeys(mapped))[i].1) {
        var e := PutAll(SortKeys(mapped))[i];
        RebuildMembers(mapped);
        assert e in mapped;
        var k :| 0 <= k < |mapped| && mapped[k] == e;
      }
  }

  lemma RebuiltInOrder(entries: seq<Entry>)
    requires DistinctKeys(entries)
    ensures InKeyOrder(PutAll(SortKeys(entries)))
  {
    SortKeysAscending(entries);
    AscendingDistinct(SortKeys(entries));
    PutAllInOrder(SortKeys(entries));
  }
}
